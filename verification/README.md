# Verified model of the two-processor knob

The knob consists of an ESP32, the bridge, which talks to Home Assistant, and an
ESP32-S3 with the display. This project models what passes between them, and two
coordinators on the Home Assistant side, and proves what they keep in every run.
`dafny verify dfyconfig.toml` checks all of it.

- **Link** (`Cobs`, `Division`, `Crc16`, `Frames`, `PriorityQueue`, `FrameQueue`, `Receiver`,
  `Link`, `StringList`). Frames are serialised, checked with a CRC-16, stuffed after Cheshire and
  Baker's "Consistent Overhead Byte Stuffing" (1999) and delimited by zero bytes. The
  receiver works byte by byte and finds its way back after garbage; received frames wait in
  a ring of 64 from which control frames may overtake bulk frames.
- **Catalog transfer** (`LibraryTransfer`, `LibraryProtocol`, `LibraryRuns`, `LibraryTiming`,
  `LibraryCatalog`, `LibraryPaging`). A stop-and-wait transfer of an encoded list, with a
  checksum over the whole, and an index of locators that has to agree with the pages
  transferred.
- **Image transfer** (`AssetTransfer`, `AssetProtocol`, `AssetRuns`, `AssetStream`,
  `AssetTiming`, `AssetProxies`). A download task feeds a queue of ten items that the poll
  loop drains, with an abort flag between them and a checksum carried from chunk to chunk
  (`Crc32`).
- **Presentations** (`CoverUrl`, `Presentation`, `PresentationProtocol`). Title, artist and
  cover of what is playing, staged on the S3 and shown by one COMMIT.
- **Playback** (`Playback`, `PlaybackProtocol`). The worker that plays only the newest
  request.
- **Firmware update** (`UpdateJob`, `UpdateTransport`). Bridge first, then S3, resumed after
  restarts; how one processor is flashed and awaited.

## How it is built

What the source does by changing fields, buffers and arrays is done by classes and methods
whose postconditions equate the new state with a step function on plain values; what is
promised is then proved about those functions, over all runs, and which of its cases an
operation takes is stated in terms of the fields it reads. A protocol is a state record
and a list of actions; a run is any sequence of enabled actions, and the theorems speak of
every state of every run. Where the code misses something one would expect of it, a lemma
builds a run from the start in which that happens, and another says exactly when it does.

The network of the catalog and image transfers is a set of frames from which anything may be
delivered again, late, out of order or never. That is weaker than the UART, which keeps the
order within each class of frames, so what is proved holds for it too. The presentations
need that order, and their model has it: frames of that class can be lost, not overtaken.
`EndToEnd` shows that the messages of all three cross the link, and that this order is kept.
Bytes are integers from 0 to 255. The bits of checksums are sequences of truth values, so
that shifts and xor are what they look like. Times are natural numbers that only grow.

A request that finds the playback lock free, with nobody waiting for it, takes it without
giving up control, so it is submitted in the step that asks; only behind a holder or another
waiter does it wait. A worker's taking of the lock is a step of its own in any case, which
allows more than the code does.

## What the proofs assume

- A transfer id is not used again while a frame, an answer or a receiver still refers to it
  (`NoTrace`). Ids repeat after 65535 transfers, and start again at 1 when the bridge
  reboots: a frame or a half-received transfer that outlives the reboot is outside the model.
- The S3 takes a completed catalog or image before it asks for the next
  (`esphome/dual-mcu-s3-core.yaml:2302-2579`, `esphome/dual-mcu-s3-core.yaml:2586-2734`).
- Home Assistant numbers its runtime updates, so that a presentation number stands for one
  content and comes again only when the last presentation is repeated (`Numbered`).
- One update job runs at a time.

## What was found

- The server of the catalog transfer can close before the client has finished
  (`ServerClosesFirst` is such a run, and `ServerMayCloseFirst` continues any transfer like
  that; `ClosesFirstIff` says when, and `ClosingFirstTakesTwo` what it takes). What holds is
  that the client had every byte (`ClosingAckHeldAll`).
- A lost MEDIA_PRESENTATION_BEGIN makes the S3 show parts of a presentation at once, although
  `esphome/dual-mcu-esp32-core.yaml:2075-2078` promises that they appear only after the COMMIT
  (`LostBeginTearsDisplay`; `DisplayIsOnePresentation` says when the display is whole).
- The locator index can run ahead of a page of more than 118 long entries
  (`IndexCanRunAhead`, and `IndexMatchesPage` for exactly when). Pages of the broker have at
  most 100.
- When the answer to the last END of an image is lost and the S3 has released the bytes, the
  bridge repeats END until it gives up after 12 s (`ReleasedTooSoon` is such a run;
  `LateEndClosesIffHeld` and `ReleasedEndIsGivenUp` say exactly when).
- An image transfer does not say what it carries, so a client that asks again early can file
  the running transfer under the kind it asked for last (`Misfiled` is such a run, and
  `FiledRightIff` says exactly when the kind is right).
- An image within one chunk of 512 KiB does not survive the loss of the answer to its last
  chunk: the client checks the limit before it looks whether it has the chunk already
  (`LargeImageIsLost` is such a run, and `LossIsRepairedIff` says exactly when).
- A burst of wrong bits that reaches from the payload into the checksum can go unnoticed,
  although it is no longer than sixteen bits: the checksum is sent low byte first
  (`StraddlingBurstAccepted`, and `ErrorAcceptedIff` for exactly when).
- A player that has a state but no media id counts as one that plays something else, so that
  its playback is repeated and reported as failed (`MissingIdIsSeen`, and `BenefitOfDoubtIff`
  for exactly when an unconfirmed track is accepted).
- A cancelled coordinator can still get a worker from a request that was waiting for the lock
  (`CancelledPlaysOn`, and `WorkerAfterCancel` for exactly when).
- An update that both processors have completed can be reported as failed when the entity
  reconciles it during the run (`ReconciledJobCanFail`, and `FailsIff` for exactly when).

## Model

| member | source | states |
|---|---|---|
| `Cobs.DecodeEncode` | esphome/dual_mcu_link.h:840-891 | Decoding an encoding gives the input back, for every byte string, multiples of 254 included |
| `Cobs.EncodeShape` | esphome/dual_mcu_link.h:840-871 | The encoding of every input is free of zero bytes and not empty |
| `Cobs.EncodedLength` | esphome/dual_mcu_link.h:840-871 | The encoding is exactly one byte longer than the input, plus one for each full block of 254 non-zero bytes |
| `Cobs.NoFullBlocks` | esphome/dual_mcu_link.h:840-871 | Strings shorter than 254 bytes have no full block, so the image of a frame is exactly one byte longer |
| `Cobs.EncodeDecode` | esphome/dual_mcu_link.h:873-891 | A wire string that decodes is the encoding of what it decodes to if and only if it is zero-free and does not end in a needless block |
| `Cobs.ShortStringsAreCanonical` | esphome/dual_mcu_link.h:873-891 | Within the wire limit the condition always holds, so every frame has one wire image |
| `Cobs.FullBlockHasTwoImages` | esphome/dual_mcu_link.h:840-891 | Beyond the limit it fails: strings that end in a full block have a longer twin that decodes to the same bytes |
| `Cobs.CobsEncode` | esphome/dual_mcu_link.h:840-871 | The in-place encoder writes the encoding if and only if it fits the capacity, else returns 0 |
| `Cobs.CobsDecode` | esphome/dual_mcu_link.h:873-891 | The in-place decoder succeeds exactly when the input decodes and the result fits, and then has written it |
| `Crc16.ComputeChecksum` | esphome/dual_mcu_link.h:828-838 | The two nested loops compute the checksum function the lemmas are about |
| `Crc16.CodeConstants` | esphome/dual_mcu_link.h:828-838 | The bit-level constants are 0xFFFF and 0x1021 |
| `Crc16.ChecksumIsRemainder` | esphome/dual_mcu_link.h:828-838 | The checksum is the remainder of long division by x^16+x^12+x^5+1 over GF(2) of the preset message, most significant bit first |
| `Division.FeedIsDivision` | esphome/dual_mcu_link.h:828-838 | Feeding bits into a register of any width divides: it becomes the remainder of the message times x^n, by schoolbook division over GF(2) |
| `Division.FeedAllXor` | esphome/dual_mcu_link.h:828-838 | Feeding is linear over xor: feeding the xor of two messages into the xor of two states gives the xor of the results |
| `Crc16.UpdateIsBijection` | esphome/dual_mcu_link.h:830-836 | For each byte the update is a bijection on the 16-bit states, with an explicit inverse |
| `Crc16.BurstDetected` | esphome/dual_mcu_link.h:828-838 | Two messages of equal length that differ only within 16 consecutive bits never share a checksum |
| `Crc16.OddErrorDetected` | esphome/dual_mcu_link.h:828-838 | Nor do two that differ in an odd number of bits |
| `Crc16.PassesIff` | esphome/dual_mcu_link.h:828-838 | A wrong message under a wrong checksum passes if and only if the error of the checksum is the remainder of the error of the message |
| `Frames.ParseRaw` | esphome/dual_mcu_link.h:377-398 | Every frame sent is parsed back to the same type, flags, sequence number and payload |
| `Frames.RawParse` | esphome/dual_mcu_link.h:893-933 | Every raw string accepted is the serialisation of the frame it is accepted as |
| `Frames.ImageFits` | esphome/dual_mcu_link.h:377-398 | The wire image of every frame fits the wire buffer and has its only zero at the end |
| `Frames.ReceiveImage` | esphome/dual_mcu_link.h:377-403 | Unstuffing and judging a sent image gives the frame that was sent |
| `Frames.RefusedFor` | esphome/dual_mcu_link.h:893-933 | Which raw strings are refused for their version, which for their length, and which for their checksum |
| `Frames.AcceptedOnlyImage` | esphome/dual_mcu_link.h:893-933 | A delimited piece that is accepted is exactly the image of the frame it is accepted as |
| `Frames.BurstRejected` | esphome/dual_mcu_link.h:893-933 | What the checksum covers, changed in at most 16 consecutive bits, is never accepted with the checksum that was sent |
| `Frames.OddErrorRejected` | esphome/dual_mcu_link.h:893-933 | Nor is it when an odd number of its bits is wrong |
| `Frames.ChecksumErrorRejected` | esphome/dual_mcu_link.h:893-933 | A right message under any wrong checksum is rejected |
| `Frames.ErrorAcceptedIff` | esphome/dual_mcu_link.h:893-933 | A raw string of the sent length and with a valid header, wrong in message and checksum, is accepted if and only if the two errors cancel in the register |
| `Frames.StraddlingBurstAccepted` | esphome/dual_mcu_link.h:377-398 | They can: because the low byte of the checksum is sent first, a burst within the last payload byte and that low byte turns any frame with a payload into another that is accepted |
| `PriorityQueue.EachClassIsFifo` | esphome/dual_mcu_link.h:337-375 | Over any interleaving of arrivals and pops, what was accepted in a class is what was delivered of it followed by what still waits, in order |
| `PriorityQueue.NothingLost` | esphome/dual_mcu_link.h:337-375 | Over any interleaving nothing accepted is lost, duplicated or invented |
| `PriorityQueue.BulkWaitsForControl` | esphome/dual_mcu_link.h:345-361 | A bulk frame is handed out only when no control frame is queued |
| `FrameQueues.FrameQueue.Enqueue` | esphome/dual_mcu_link.h:918-932 | Appends to the abstract sequence, or changes nothing and says so when 64 frames wait |
| `FrameQueues.FrameQueue.Pop` | esphome/dual_mcu_link.h:337-343 | Takes the head of the abstract sequence; the ring stays consistent (tail = head + count mod 64) |
| `FrameQueues.FrameQueue.PopPriority` | esphome/dual_mcu_link.h:345-375 | Removes the first control frame, else the head, closing the gap in the ring and leaving the order of the rest |
| `Receiver.PollRefinesSplit` | esphome/dual_mcu_link.h:313-335 | A synchronized receiver computes, byte by byte, exactly what cutting the stream at its zeros and judging each piece gives |
| `Receiver.Synchronize` | esphome/dual_mcu_link.h:313-320 | An unsynchronized receiver drops everything up to and including the first zero and nothing more |
| `Receiver.AnySplitIntoCalls` | esphome/dual_mcu_link.h:313-335 | However a stream is cut into calls of poll, the state reached is the same |
| `Receiver.PollDelivers` | esphome/dual_mcu_link.h:313-335 | What a stream adds to the queue is the accepted frames in stream order, until the queue is full; the rest are counted as overflow |
| `Receiver.EachPieceCountsOnce` | esphome/dual_mcu_link.h:893-933 | Every non-empty piece within the wire limit moves exactly one of the five counters, by one |
| `Receiver.CountedAs` | esphome/dual_mcu_link.h:893-933 | And which: each verdict has its own counter, and an accepted frame counts as received or, with a full queue, as overflow |
| `Receiver.SelfSynchronizes` | esphome/dual_mcu_link.h:313-335 | From any receiver state, a zero followed by one sent image delivers exactly that frame |
| `Receiver.ImageIsDelivered` | esphome/dual_mcu_link.h:313-335 | A synchronized receiver with an empty buffer turns a sent image into that frame and one more received |
| `LinkLayer.Link.Setup` | esphome/dual_mcu_link.h:304-311 | Starts unsynchronized with an empty wire buffer |
| `LinkLayer.Link.Poll` | esphome/dual_mcu_link.h:313-335 | The loop over the UART bytes leaves buffer, ring and counters as the byte-by-byte specification says |
| `LinkLayer.Link.DecodeReceivedFrame` | esphome/dual_mcu_link.h:893-933 | Judges the wire buffer and records the verdict in ring and counters |
| `LinkLayer.Link.Send` | esphome/dual_mcu_link.h:377-403 | Writes the wire image of the frame with the present sequence number, or refuses an oversized payload and changes nothing |
| `LinkLayer.Link.PopPriority` | esphome/dual_mcu_link.h:345-375 | Hands out the frame the priority rule selects and keeps the rest |
| `StringList.ParseStringList` | esphome/dual_mcu_link.h:122-172 | The loops compute the parse function, for every input and limit |
| `StringList.ParseBounded` | esphome/dual_mcu_link.h:122-172 | For every input at most `maximum` strings come out, each non-empty and at most 189 bytes |
| `StringList.ParsePrint` | esphome/dual_mcu_link.h:122-172 | However a list is written (white space and commas between the strings, either quote per string, any escapes, anything behind the bracket) it parses to the first `maximum` non-empty strings cut to 189 bytes |
| `StringList.NothingChanges` | esphome/dual_mcu_link.h:122-172 | Strings that are non-empty, at most 189 bytes and at most `maximum` come out just as they were written, in that order |
| `StringList.ParseMalformed` | esphome/dual_mcu_link.h:122-172 | A list that breaks off in garbage gives nothing, unless `maximum` strings came before |
| `StringList.ParseUnopened` | esphome/dual_mcu_link.h:122-172 | What does not begin with a bracket gives nothing |
| `StringList.RoundTrip` | esphome/dual_mcu_link.h:122-172 | So such a list, printed with either quote, comes back unchanged |
| `CoverUrl.ReadPrint` | esphome/dual_mcu_link.h:962-1073 | Every message of the URL transfer is read back as sent and fits a frame |
| `CoverUrl.QueuedIff` | esphome/dual_mcu_link.h:951-960 | A URL is queued if and only if it has at most 512 bytes, under a new id that is never 0 |
| `CoverUrl.AcceptsIff` | esphome/dual_mcu_link.h:1003-1013 | An acknowledgement is accepted if and only if one is awaited for that id, and only once |
| `CoverUrl.EndAnsweredIff` | esphome/dual_mcu_link.h:1061-1079 | Every END is answered, with 0 and the URL if and only if all of it was received |
| `CoverUrl.GapIsFatal` | esphome/dual_mcu_link.h:1044-1079 | A missing, foreign or overlong chunk spoils the transfer: its END is answered with 1 |
| `CoverUrl.CoverUrlSender.Queue` | esphome/dual_mcu_link.h:951-960 | A URL of at most 512 bytes replaces the one in progress under the next id, a longer one changes nothing |
| `CoverUrl.CoverUrlSender.PollSend` | esphome/dual_mcu_link.h:962-1001 | Sends BEGIN, the pieces at contiguous offsets, END, one frame a call, and nothing while the link refuses |
| `CoverUrl.CoverUrlSender.Acknowledge` | esphome/dual_mcu_link.h:1003-1013 | Accepts one acknowledgement, only when END was sent and only for the present id |
| `CoverUrl.CoverUrlReceiver.Handle` | esphome/dual_mcu_link.h:1028-1079 | BEGIN, chunks and END change the receiver as specified; END is always answered |
| `Presentation.PresentationBridge.QueuePresentation` | esphome/dual-mcu-esp32-core.yaml:2069-2097 | The three frames sent and the URL queued are those of the current presentation, whose number is remembered for the COMMIT |
| `Presentation.PresentationBridge.OnUrlAck` | esphome/dual-mcu-esp32-core.yaml:3173-3187 | A COMMIT with the remembered number goes out exactly for an accepted acknowledgement with result 0 |
| `Presentation.PresentationStage.Begin` | esphome/dual-mcu-s3-core.yaml:1405-1418 | Starts an empty stage under the number received, if the bridge presents atomically |
| `Presentation.PresentationStage.Text` | esphome/dual-mcu-s3-core.yaml:1585-1634 | Title and artist go to the stage while one is open, else straight to the display |
| `Presentation.PresentationStage.Cover` | esphome/dual-mcu-s3-core.yaml:1641-1660 | The same for a completed cover URL |
| `Presentation.PresentationStage.Commit` | esphome/dual-mcu-s3-core.yaml:1664-1745 | The stage becomes the display exactly if it is complete, of that number, and newer |
| `Presentation.PresentationStage.BridgeStatus` | esphome/dual-mcu-s3-core.yaml:1327-1360 | A change of the bridge's abilities drops the stage |
| `Presentation.ReadPrinted` | esphome/dual_mcu_link.h:424-431 | The number and the text, cut to 191 bytes, are read back as sent |
| `Presentation.NewerIff` | esphome/dual-mcu-s3-core.yaml:1678-1683 | A number of another session is always newer; within a session the one d steps on is, if and only if 0 < d < 2^31, also when it wraps |
| `Presentation.NotBothNewer` | esphome/dual-mcu-s3-core.yaml:1678-1683 | Of two numbers of a session at most one is newer than the other, and exactly one unless they are equal or half the circle apart |
| `PresentationProtocol.CompletedUrlIsQueued` | esphome/dual_mcu_link.h:1026-1079 | With arbitrary loss and re-queuing, a completed URL is the one queued under the id of the END that completed it |
| `PresentationProtocol.AcceptedAckIsLatest` | esphome/dual-mcu-esp32-core.yaml:3173-3187 | An accepted acknowledgement with result 0 was sent when the S3 had taken over the cover of the latest presentation, and the COMMIT names that presentation |
| `PresentationProtocol.CommitShowsOnePresentation` | esphome/dual-mcu-s3-core.yaml:1664-1745 | A COMMIT taken up shows title, artist and cover of the one presentation it was sent for |
| `PresentationProtocol.CommitsAdvance` | esphome/dual-mcu-s3-core.yaml:1675-1690 | A presentation never replaces one queued after it |
| `PresentationProtocol.DisplayIsOnePresentation` | esphome/dual-mcu-s3-core.yaml:1585-1745 | As long as every text and every completed URL finds a stage, the display is the last committed presentation in all its parts |
| `PresentationProtocol.OnlyWritesThroughTear` | esphome/dual-mcu-s3-core.yaml:1585-1660 | Outside a commit the display changes only through a text or URL that found no stage, and then exactly if it differs from what was shown |
| `PresentationProtocol.LostBeginTearsDisplay` | esphome/dual-mcu-s3-core.yaml:1587-1599 | It happens: with the BEGIN lost, a new title appears over the old rest with nothing committed |
| `PresentationProtocol.NothingCommittedUntilBegun` | esphome/dual-mcu-s3-core.yaml:1405-1418 | After a commit, a lost link or a change of the bridge's ability no COMMIT is taken up until a presentation begins |
| `PresentationProtocol.StatusKeepsIff` | esphome/dual-mcu-s3-core.yaml:1327-1360 | A status of the bridge keeps what is staged if and only if its ability is what it was |
| `PresentationProtocol.TextsNeedLink` | esphome/dual-mcu-s3-core.yaml:1585-1634 | From the loss of the link until the next status title and artist are ignored |
| `PresentationProtocol.LosslessIsShown` | esphome/dual-mcu-esp32-core.yaml:2069-2097 | Whatever an S3 that is ready and presents atomically has staged or received before: with nothing else on the wire, if nothing is lost of a presentation of another session, or of one up to half the circle of numbers ahead, the S3 ends up showing it |
| `EndToEnd.KindsStayInOrder` | esphome/dual_mcu_link.h:345-375 | Frames of any types that are all bulk, or none of them, pass the queue in order among themselves, whatever else overtakes |
| `EndToEnd.TransfersStayInOrder` | esphome/dual_mcu_link.h:789-803 | So presentations, catalog frames and image frames each keep their order |
| `EndToEnd.OthersOvertakeBulk` | esphome/dual_mcu_link.h:345-375 | A frame of any type but the eight bulk ones is handed out before all bulk frames in front of it, which stay as they were |
| `EndToEnd.CoverMessageCrosses` | esphome/dual_mcu_link.h:313-403 | A URL message sent to a listening receiver is queued as one frame and read back as sent |
| `Crc32.CodeConstants` | esphome/dual_mcu_radar_proxy.h:46-54 | The bit-level constant is 0xEDB88320 |
| `Crc32.GeneratorTerms` | esphome/dual_mcu_radar_proxy.h:46-54 | Read from its other end it stands for x^32+x^26+x^23+x^22+x^16+x^12+x^11+x^10+x^8+x^7+x^5+x^4+x^2+x+1 |
| `Crc32.ChecksumIsRemainder` | esphome/dual_mcu_radar_proxy.h:46-54 | The checksum is the complement of the remainder of long division by that polynomial of the preset message, each byte least significant bit first |
| `Crc32.BurstDetected` | esphome/dual_mcu_radar_proxy.h:46-54 | Two blobs of equal length that differ only within 32 consecutive bits never share a checksum |
| `Crc32.WrongBytesDetected` | esphome/dual_mcu_library_proxy.h:424-438 | So no wrong bytes within four consecutive ones pass the checksum of an END |
| `Crc32.ComputeUpdate` | esphome/dual_mcu_radar_proxy.h:46-54 | The loop computes the update function, which complements on entry and exit (section 8 of RFC 1952) |
| `Crc32.ComputeChecksum` | esphome/dual_mcu_library_proxy.h:49-57 | The same loop of the library transfer, from zero |
| `Crc32.UpdateConcat` | esphome/dual_mcu_radar_proxy.h:46-54 | Updating with a and then b is updating with a + b |
| `Crc32.UpdateEachIsWhole` | esphome/dual_mcu_radar_proxy.h:277-302 | However the bytes are cut into chunks, the carried checksum is that of the whole |
| `LibraryMessages.ReadPrint` | esphome/dual_mcu_library_proxy.h:229-287 | Every message of the catalog transfer is read back as sent and fits a frame |
| `LibraryTransfer.LibraryServer.HandleRequest` | esphome/dual_mcu_library_proxy.h:193-227 | Starts a transfer of the cached blob, or says why not: unknown or empty slot, or one still running that has not stalled |
| `LibraryTiming.RequestStartsIff` | esphome/dual_mcu_library_proxy.h:193-227 | A request starts a transfer if and only if it names a slot with a catalog and no transfer runs or the last progress is more than 2000 ms back; which requests are unknown, busy, or none |
| `LibraryTiming.RequestFreezes` | esphome/dual_mcu_library_proxy.h:208-227 | A started transfer carries the catalog and context cached then, under a new id that is never 0; a refused request changes nothing |
| `LibraryTiming.PollIff` | esphome/dual_mcu_library_proxy.h:229-263 | A poll drops a transfer if and only if its last progress is more than 2000 ms back, and else sends unless an answer has been awaited for less than 40 ms or the link refuses |
| `LibraryTiming.SilentIsGivenUp` | esphome/dual_mcu_library_proxy.h:229-235 | In every run: when nothing was started or accepted for more than 2000 ms, the next poll leaves no transfer behind |
| `LibraryTiming.SilentIsReplaced` | esphome/dual_mcu_library_proxy.h:201-207 | And any request for a catalog that is there starts a transfer |
| `LibraryTiming.SurvivesPollIff` | esphome/dual_mcu_library_proxy.h:229-235 | In every run a transfer survives a poll if and only if its start or last accepted answer is at most 2000 ms back |
| `LibraryTiming.RefusedAsBusyIff` | esphome/dual_mcu_library_proxy.h:201-207 | And for just as long another request is refused as busy |
| `LibraryTransfer.LibraryServer.PollSend` | esphome/dual_mcu_library_proxy.h:229-263 | Sends the frame of the present phase unless one is awaited or the transfer stalled, in which case it is dropped |
| `LibraryTransfer.LibraryServer.Acknowledge` | esphome/dual_mcu_library_proxy.h:265-287 | Moves on for the one acknowledgement that is expected, and for no other |
| `LibraryTransfer.LibraryServer.ResetTransfer` | esphome/dual_mcu_library_proxy.h:294-303 | Back to idle; the caches stay |
| `LibraryTransfer.LibraryClient.Request` | esphome/dual_mcu_library_proxy.h:374-384 | Sends a request only when idle, available and past the retry time |
| `LibraryTransfer.LibraryClient.Begin` | esphome/dual_mcu_library_proxy.h:386-405 | Takes up the transfer asked for, answers a repeated BEGIN, fails on an oversized one |
| `LibraryTransfer.LibraryClient.Append` | esphome/dual_mcu_library_proxy.h:407-422 | Appends the next chunk, answers an identical repetition, ignores a gap, fails on a foreign or oversized one |
| `LibraryTransfer.LibraryClient.Finish` | esphome/dual_mcu_library_proxy.h:424-438 | Completes only on matching id, length and checksum |
| `LibraryTransfer.LibraryClient.SendAck` | esphome/dual_mcu_library_proxy.h:440-446 | Acknowledges with the number of bytes held |
| `LibraryTransfer.LibraryClient.Tick` | esphome/dual_mcu_library_proxy.h:452-454 | Fails a request or transfer without progress for 12 s |
| `LibraryTransfer.LibraryClient.SetAvailable` | esphome/dual_mcu_library_proxy.h:367-370 | Becoming unavailable drops everything |
| `LibraryTransfer.LibraryClient.TakeCompleted` | esphome/dual_mcu_library_proxy.h:456-467 | Hands over kind, page info, page context and decoded entries once, or fails when the bytes do not decode |
| `LibraryTransfer.LibraryClient.NotifyRemoteCacheChanged` | esphome/dual_mcu_library_proxy.h:481-488 | Lifts the retry delay of the kind that changed |
| `LibraryTransfer.AnsweredMeansHeld` | esphome/dual_mcu_library_proxy.h:386-438 | A frame is answered if and only if the client then holds what it carried |
| `LibraryTransfer.DroppedIff` | esphome/dual_mcu_library_proxy.h:386-438 | A receiving client gives up if and only if the frame is of another transfer, exceeds the limit, or is an END that does not close what it has; then it asks for nothing for 10 s |
| `LibraryTransfer.TakenUpIff` | esphome/dual_mcu_library_proxy.h:386-405 | A waiting client takes up just the transfer of the kind it asked for that is not too long |
| `LibraryTiming.AsksIff` | esphome/dual_mcu_library_proxy.h:374-384 | A request goes out if and only if the client is available, idle and past its retry time and the link takes it |
| `LibraryTiming.ClientGivesUpIff` | esphome/dual_mcu_library_proxy.h:452-454 | In every run the client gives up with a tick if and only if its last progress is more than 12 s back |
| `LibraryTiming.FailureHoldsBack` | esphome/dual_mcu_library_proxy.h:536-548 | In every run no request goes out for 10 s after a failure, unless the remote cache changes |
| `LibraryTiming.ChangeLiftsDelay` | esphome/dual_mcu_library_proxy.h:481-488 | A change of the remote cache lifts that delay for the kind last asked for |
| `LibraryTiming.UnavailableIsSilent` | esphome/dual_mcu_library_proxy.h:367-370 | In every run a client told that there is no library holds, asks, takes and answers nothing until told otherwise |
| `LibraryTiming.TakenOnce` | esphome/dual_mcu_library_proxy.h:456-467 | A completed catalog is handed over once, and one that does not decode is a failure |
| `LibraryProtocol.BufferIsPrefix` | esphome/dual_mcu_library_proxy.h:386-438 | In every reachable state the client's buffer is a prefix of the blob frozen for its transfer id |
| `LibraryProtocol.BufferInStep` | esphome/dual_mcu_library_proxy.h:229-287 | In the client's first pass through the running transfer it holds the acknowledged bytes, or those and the chunk in flight |
| `LibraryProtocol.CompletedIsExact` | esphome/dual_mcu_library_proxy.h:193-227 | A completed transfer equals the blob cached when it was requested, with its kind and context, whatever replaced the cache meanwhile |
| `LibraryProtocol.CatalogArrives` | esphome/dual_mcu_library_proxy.h:84-122 | So taking it over succeeds and gives the longest fitting prefix of the entries the bridge was given, cut to the field limits |
| `LibraryProtocol.PageArrives` | esphome/dual_mcu_library_proxy.h:128-187 | The same for a page, with its total, offset, next offset, more flag and context |
| `LibraryProtocol.ClosingAckHeldAll` | esphome/dual_mcu_library_proxy.h:265-287 | The acknowledgement that closes the server was sent while the client held the whole blob |
| `LibraryProtocol.AckIsOneStep` | esphome/dual_mcu_library_proxy.h:265-287 | An accepted acknowledgement lowers the number still needed by exactly one, any other changes nothing |
| `LibraryProtocol.ProgressBalance` | esphome/dual_mcu_library_proxy.h:229-287 | Over an undisturbed stretch of any run, acknowledgements accepted and still needed add up to what was needed |
| `LibraryProtocol.TransferCost` | esphome/dual_mcu_library_proxy.h:229-287 | An undisturbed transfer of n bytes takes exactly ceil(n/186) + 2 accepted acknowledgements, whatever was lost or repeated |
| `LibraryProtocol.ExchangeAdvances` | esphome/dual_mcu_library_proxy.h:229-287 | Nothing gets stuck: in every such state one undisturbed exchange is answered and the answer accepted |
| `LibraryRuns.LosslessCompletes` | esphome/dual_mcu_library_proxy.h:229-287 | From any reachable state in which server and client are in touch, exchanges without loss lead to a client that completed with the whole frozen blob and a server that is done |
| `LibraryRuns.ServerMayCloseFirst` | esphome/dual_mcu_library_proxy.h:271-280 | Every run that reaches the last chunk can go on like this: the chunk is sent and answered twice, and the second answer closes the server while the client still receives |
| `LibraryRuns.ServerClosesFirst` | esphome/dual_mcu_library_proxy.h:271-280 | It happens: a run from the start to a server that closed before its client finished |
| `LibraryRuns.ClosesFirstIff` | esphome/dual_mcu_library_proxy.h:265-287 | In every reachable state that waits for the answer to END, some answer under way closes the server before the client has finished if and only if the client has not finished and an answer for all the bytes is under way |
| `LibraryRuns.ClosingFirstTakesTwo` | esphome/dual_mcu_library_proxy.h:265-287 | Over a link that does not duplicate, closing first takes at least two answers for all the bytes sent before any END was answered; a last chunk answered once cannot do it |
| `LibraryCatalog.SetRoundTrip` | esphome/dual_mcu_library_proxy.h:494-534 | Decoding the blob of set gives the longest prefix of at most 192 entries that fits 48 KiB, each field cut to 96/192/96/24 bytes |
| `LibraryCatalog.PageRoundTrip` | esphome/dual_mcu_library_proxy.h:494-534 | The same for set_page, with total, offset, next offset and the more flag of its header |
| `LibraryCatalog.FittingIsLongest` | esphome/dual_mcu_library_proxy.h:88-117 | The entries kept fit the limit and one more would not |
| `LibraryCatalog.AllFit` | esphome/dual_mcu_library_proxy.h:88-117 | Pages of up to 118 entries always fit |
| `LibraryCatalog.IndexMatchesPage` | esphome/dual_mcu_library_proxy.h:128-191 | The locator index ends where the page says the next one starts if and only if header and all entries offered are at most 48 KiB |
| `LibraryCatalog.IndexCanRunAhead` | esphome/dual_mcu_library_proxy.h:128-191 | It can fail: 119 entries of the greatest length leave a locator no page shows |
| `LibraryCatalog.CatalogCache.Set` | esphome/dual_mcu_library_proxy.h:84-126 | Stores the blob and one locator for each entry in it |
| `LibraryCatalog.CatalogCache.SetPage` | esphome/dual_mcu_library_proxy.h:128-191 | Stores the page and its locators at the offset, or refuses a gap and changes nothing |
| `LibraryCatalog.CatalogCache.Lookup` | esphome/dual_mcu_library_proxy.h:312-325 | What an index position is played as, if it is there |
| `LibraryCatalog.LocatorIsPlayed` | esphome/dual_mcu_library_proxy.h:113-120 | The index plays the URI of an entry, and its id only if it has no URI, as playlist or track after its kind |
| `LibraryCatalog.AppendEntry` | esphome/dual_mcu_library_proxy.h:337-346 | Appends an entry whole if it fits, else only leading fields of it |
| `LibraryCatalog.AppendLoop` | esphome/dual_mcu_library_proxy.h:96-107 | Takes the longest fitting prefix of the entries; what was appended of the first that does not fit is rolled back |
| `LibraryCatalog.DecodeBlob` | esphome/dual_mcu_library_proxy.h:494-534 | The loops compute the decode function: every byte consumed, or nothing |
| `LibraryPaging.BoundedPageIsNext` | custom_components/passion_wave/media.py:63-169 | Whatever offset and limit are asked for, the page holds at most 100 of the selected entries from the offset on, is empty only at the end, and a short one is the last |
| `LibraryPaging.WalkIsComplete` | esphome/dual_mcu_library_proxy.h:128-191 | A walk by next offset ends; then the index is that of the first 192 selected entries, every page reported its own offset, and the decoded pages together are those entries without gap or repeat |
| `LibraryPaging.WalkContinues` | esphome/dual_mcu_library_proxy.h:128-191 | As long as a page says there is more, the next one can be stored, whatever its limit |
| `LibraryPaging.SelectKeepsOrder` | custom_components/passion_wave/media.py:150-169 | The selection is a subsequence of the items |
| `LibraryPaging.SelectKeepsCounts` | custom_components/passion_wave/media.py:150-169 | And drops exactly the items whose locator is not allowed, keeping the multiplicity of the others |
| `EndToEnd.LibraryMessageCrosses` | esphome/dual_mcu_library_proxy.h:229-287 | A catalog message sent to a listening receiver is queued as one frame and read back as sent |
| `AssetMessages.ReadPrint` | esphome/dual_mcu_radar_proxy.h:128-176 | Every message of the image transfer is read back as sent and fits a frame |
| `AssetTransfer.OtherKindsMayAsk` | esphome/dual_mcu_radar_proxy.h:520-546 | A failure delays the next request of the kind that failed, by its cooldown, and of no other kind |
| `AssetTransfer.StartsIff` | esphome/dual_mcu_radar_proxy.h:103-121 | A download starts if and only if the URL fits and nothing of the last one is left, under a new id that is never 0 |
| `AssetTransfer.PollIff` | esphome/dual_mcu_radar_proxy.h:128-176 | A poll gives a busy bridge up if and only if its last progress is more than 12 s back, and else sends the pending or next item unless an answer has been awaited for less than 40 ms or the link refuses |
| `AssetTransfer.OpenDecides` | esphome/dual_mcu_radar_proxy.h:238-275 | What each outcome of opening the URL leads to: an ERROR with its code, 4 for too long an image, or a BEGIN with the length announced |
| `AssetTransfer.RefusedIff` | esphome/dual_mcu_radar_proxy.h:218-224 | An item is refused once the transfer is given up; a refused chunk makes the download task offer ERROR 5 |
| `AssetTransfer.AsksIff` | esphome/dual_mcu_radar_proxy.h:402-420 | A request goes out if and only if the client is available, idle and past the retry time of that kind and the link takes it |
| `AssetTransfer.TakenUpIff` | esphome/dual_mcu_radar_proxy.h:422-437 | A waiting client takes up whatever begins, unless it is too long or there is no memory, which are failures 4 and 14 |
| `AssetTransfer.DroppedIff` | esphome/dual_mcu_radar_proxy.h:439-490 | A receiving client gives up if and only if a chunk is foreign or too long, an END does not close what it has, or an ERROR arrives, each with its code |
| `AssetTransfer.GoodMeansHeld` | esphome/dual_mcu_radar_proxy.h:439-456 | Appending succeeds if and only if the client then holds the bytes of the chunk where they belong |
| `AssetTransfer.TakenOnce` | esphome/dual_mcu_radar_proxy.h:498-508 | A completed image is handed over once, and its bytes stay until they are released |
| `AssetTiming.ClientGivesUpIff` | esphome/dual_mcu_radar_proxy.h:494-496 | In every run the client gives up with a tick if and only if its last progress is more than 12 s back |
| `AssetTiming.UnavailableIsSilent` | esphome/dual_mcu_radar_proxy.h:395-398 | In every run a client told that the bridge is gone holds, asks, takes and answers nothing until told otherwise |
| `AssetProxies.AssetBuffer.Allocate` | esphome/dual_mcu_radar_proxy.h:59-70 | Leaves an empty block of the capacity asked for, or none |
| `AssetProxies.AssetBuffer.Append` | esphome/dual_mcu_radar_proxy.h:71-77 | Appends in place, or changes nothing when there is no block or no room |
| `AssetProxies.AssetClient.Request` | esphome/dual_mcu_radar_proxy.h:402-420 | Sends a request only when idle, available and past that kind's retry time |
| `AssetProxies.AssetClient.Begin` | esphome/dual_mcu_radar_proxy.h:422-437 | Takes up any transfer while waiting, answers a repeated BEGIN, fails on an oversized one or without memory |
| `AssetProxies.AssetClient.Append` | esphome/dual_mcu_radar_proxy.h:439-456 | Appends the next chunk, ignores repetitions and gaps, fails on a foreign or oversized one; true exactly if the bytes of the chunk are held then |
| `AssetProxies.AssetClient.Finish` | esphome/dual_mcu_radar_proxy.h:458-477 | Completes only on matching id, length, announced length and checksum |
| `AssetProxies.AssetClient.Fail` | esphome/dual_mcu_radar_proxy.h:520-546 | Drops the transfer and starts the cooldown of the kind that failed |
| `AssetProxies.AssetClient.SendAck` | esphome/dual_mcu_radar_proxy.h:479-485 | Acknowledges with the number of bytes held |
| `AssetProxies.AssetClient.ReleaseCompletedBytes` | esphome/dual_mcu_radar_proxy.h:506-508 | Frees the buffer unless a transfer is running |
| `AssetProxies.AssetServer.Start` | esphome/dual_mcu_radar_proxy.h:103-121 | Starts only when nothing of the last transfer is left, with an emptied queue and the next id |
| `AssetProxies.AssetServer.PollSend` | esphome/dual_mcu_radar_proxy.h:128-176 | Sends or repeats the pending item, takes the next one, or gives a stalled transfer up |
| `AssetProxies.AssetServer.Acknowledge` | esphome/dual_mcu_radar_proxy.h:178-195 | Releases the pending item for the one acknowledgement it expects, and for no other |
| `AssetProxies.AssetServer.Push` | esphome/dual_mcu_radar_proxy.h:218-224 | One attempt of enqueue_: appended if fewer than ten items wait |
| `AssetProxies.Download` | esphome/dual_mcu_radar_proxy.h:277-317 | The loop ends with the first read it can end with; then END is offered, with length and checksum of all the bytes read, if and only if no read failed, no chunk was refused, the response is complete, not empty and as long as announced, if it was; else ERROR 5 or 6 |
| `AssetStream.ReadDecides` | esphome/dual_mcu_radar_proxy.h:280-317 | The same for one step of the download task: which read leads to a chunk, an END, ERROR 5 or ERROR 6 |
| `AssetStream.EndOfferedIff` | esphome/dual_mcu_radar_proxy.h:303-317 | In every run: reading on offers the END of all the bytes queued if and only if the response is complete, brought some, and brought as many as the BEGIN announced, if any |
| `AssetStream.LosslessCompletes` | esphome/dual_mcu_radar_proxy.h:277-317 | From any reachable state with a download being opened and a client waiting: whatever pieces an image of up to 512 KiB comes in, with or without its length announced, if nothing is lost the client completes with its bytes, and the bridge is free again |
| `AssetStream.ImageArrives` | esphome/dual_mcu_radar_proxy.h:103-317 | It happens from the very start, for every kind of image |
| `AssetStream.FailureIsReported` | esphome/dual_mcu_radar_proxy.h:226-317 | Whatever makes a download fail, if nothing is lost the client learns the code and gives up, and the bridge is free again |
| `AssetStream.GivenUpTaskLeaves` | esphome/dual_mcu_radar_proxy.h:218-224 | Once a transfer is given up its download task can leave within three steps, wherever it stands |
| `AssetStream.LossIsRepairedIff` | esphome/dual_mcu_radar_proxy.h:128-195 | After a lost frame or answer the item is sent again and its answer accepted, if and only if it is not a chunk the client already has at the end of an image within one chunk of 512 KiB |
| `AssetStream.LargeImageIsLost` | esphome/dual_mcu_radar_proxy.h:439-456 | It happens: an image of 512 KiB is dropped with error 7 because one acknowledgement was lost |
| `AssetProtocol.PipelineIsScript` | esphome/dual_mcu_radar_proxy.h:103-317 | However task, poll loop, acknowledgements, abort and restart interleave: queued and pending items carry the present id, and the acknowledged ones are a BEGIN, chunks at contiguous offsets, an END |
| `AssetProtocol.QueueLosesNothing` | esphome/dual_mcu_radar_proxy.h:128-224 | Until a transfer is given up, acknowledged, pending and queued items together are what the download task queued, in order |
| `AssetProtocol.AcknowledgedIsHeld` | esphome/dual_mcu_radar_proxy.h:178-195 | An accepted acknowledgement was sent while the client held exactly the bytes of all items acknowledged by then |
| `AssetProtocol.CompletedIsExact` | esphome/dual_mcu_radar_proxy.h:458-477 | The client completes only with exactly the bytes the download task queued for that transfer |
| `AssetProtocol.EndIsFinal` | esphome/dual_mcu_radar_proxy.h:303-317 | What was queued before the END stays the content of that id until the id is used again |
| `AssetProtocol.GivenUpIsSilent` | esphome/dual_mcu_radar_proxy.h:128-139 | Once a transfer is given up nothing of it is sent or acknowledged, also not an item the download task was just queueing |
| `AssetProtocol.RestartIsClean` | esphome/dual_mcu_radar_proxy.h:103-121 | A new transfer starts only after the old task has left and its items are gone |
| `AssetProtocol.LateEndClosesIffHeld` | esphome/dual_mcu_radar_proxy.h:458-508 | A repeated END is answered acceptably if and only if the client has not released the bytes yet |
| `AssetRuns.ReleasedEndIsGivenUp` | esphome/dual_mcu_radar_proxy.h:128-139 | After that, unless the S3 asks again, a poll gives the transfer up if and only if it comes more than 12 s after the last progress; until then END is repeated |
| `AssetRuns.ReleasedTooSoon` | esphome/dual_mcu_radar_proxy.h:458-508 | It happens: a run in which END is answered, the answer lost, the bytes released, END repeated in vain, and the bridge gives up |
| `AssetProtocol.ReceiveIgnoresKind` | esphome/dual_mcu_radar_proxy.h:422-477 | No frame carries the kind: a waiting client takes any transfer and files it under the kind it asked for |
| `AssetRuns.FiledRightIff` | esphome/dual_mcu_radar_proxy.h:422-477 | In every run a completed image is filed under the kind its transfer was started for if and only if that kind was the one asked for when its BEGIN was taken up |
| `AssetRuns.Misfiled` | esphome/dual_mcu_radar_proxy.h:402-477 | It happens: a run that completes with the radar image filed under another kind |
| `EndToEnd.AssetMessageCrosses` | esphome/dual_mcu_radar_proxy.h:128-195 | An image message sent to a listening receiver is queued as one frame and read back as sent |
| `PlaybackQueue.LatestPlaybackQueue.Submit` | custom_components/passion_wave/media.py:28-45 | The new command replaces the latest under the next generation |
| `PlaybackQueue.LatestPlaybackQueue.LatestAfter` | custom_components/passion_wave/media.py:47-51 | The latest command if it is newer than the one handled |
| `PlaybackQueue.LatestPlaybackQueue.Complete` | custom_components/passion_wave/media.py:57-60 | Forgets the latest command only if it is the one completed |
| `PlaybackQueue.CompletionIsOwn` | custom_components/passion_wave/media.py:28-60 | Completing an old command never takes a newer one with it |
| `PlaybackQueue.WaitForTrack` | custom_components/passion_wave/broker.py:633-664 | The first look that decides does: superseded, or the track shown for 0.4 s; when 10 s are up only a player that showed nothing gets the benefit of the doubt |
| `PlaybackQueue.BenefitOfDoubtIff` | custom_components/passion_wave/broker.py:633-664 | When the time is up undecided, the command counts as confirmed if and only if every look found no state or an empty media id |
| `PlaybackQueue.MissingIdIsSeen` | custom_components/passion_wave/broker.py:633-699 | A player that has a state but never the attribute: a track that is still wanted is played twice and reported as failed |
| `PlaybackQueue.ExecutePlayback` | custom_components/passion_wave/broker.py:667-699 | At most two calls, the second if and only if the first is still wanted and unconfirmed; success if and only if the last is still wanted and confirmed |
| `PlaybackQueue.OneOutcome` | custom_components/passion_wave/broker.py:633-664 | What the looks of an attempt show determines its outcome |
| `PlaybackQueue.ExecutionFollows` | custom_components/passion_wave/broker.py:667-699 | The same in terms of what the looks show |
| `PlaybackQueue.ShownIsSuccess` | custom_components/passion_wave/broker.py:651-664 | A track shown for 0.4 s within the first attempt takes one call and succeeds |
| `PlaybackQueue.ShownAgainIsSuccess` | custom_components/passion_wave/broker.py:673-699 | One shown so only in the second takes two calls and succeeds |
| `PlaybackQueue.SupersededFails` | custom_components/passion_wave/broker.py:648-650 | A command superseded before it was confirmed takes one call and fails |
| `PlaybackQueue.UnwatchedIsTaken` | custom_components/passion_wave/broker.py:639-641 | What is not a track takes one call, and succeeds if it is still wanted |
| `PlaybackQueue.PlaybackCoordinator.PlayMedia` | custom_components/passion_wave/broker.py:747-774 | A valid request is submitted, and a worker created exactly if there is none |
| `PlaybackQueue.PlaybackCoordinator.Leave` | custom_components/passion_wave/broker.py:735-744 | The leaving worker creates a successor exactly if a newer command waits and nothing was cancelled |
| `PlaybackQueue.PlaybackCoordinator.Complete` | custom_components/passion_wave/broker.py:728-734 | The callback goes out, with result 0 or 5, only for the command still wanted, and only its return clears it |
| `PlaybackProtocol.AtMostOneWorker` | custom_components/passion_wave/broker.py:702-774 | In every reachable state there is at most one worker, so calls never overlap |
| `PlaybackProtocol.NoRequestLost` | custom_components/passion_wave/broker.py:702-774 | While running, a generation no worker has taken up has a live worker; and with no worker left, what was played last is what was asked for last |
| `PlaybackProtocol.NewestIsTaken` | custom_components/passion_wave/broker.py:708-712 | A worker takes up the newest request submitted by then |
| `PlaybackProtocol.CallsAscend` | custom_components/passion_wave/broker.py:673-699 | play_media is called for generations in ascending order, at most twice each and then in a row |
| `PlaybackProtocol.SendsAscend` | custom_components/passion_wave/broker.py:728-734 | Completion callbacks have strictly ascending generations |
| `PlaybackProtocol.SendingIsCurrent` | custom_components/passion_wave/broker.py:728-734 | Each goes out while its generation is the latest, which it stays until the callback returns |
| `PlaybackProtocol.SentIsNotPlayedAgain` | custom_components/passion_wave/broker.py:728-744 | A generation whose callback was sent, even if it raised, is never played again |
| `PlaybackProtocol.SentIsForgotten` | custom_components/passion_wave/broker.py:728-734 | When the callback returns nothing is wanted any more, when it raises its command still is, and the lock is free in either case |
| `PlaybackProtocol.RepeatedIff` | custom_components/passion_wave/broker.py:673-699 | After a confirmation ran out the generation is played again if and only if it was its first call, unconfirmed and still the latest |
| `PlaybackProtocol.SuccessIff` | custom_components/passion_wave/broker.py:673-727 | A command is done with success if and only if it was confirmed while it was the latest; what raises is a failure |
| `PlaybackProtocol.ResultIsSent` | custom_components/passion_wave/broker.py:728-734 | And that is what the callback reports |
| `PlaybackProtocol.WorkerIsNeverStuck` | custom_components/passion_wave/broker.py:702-744 | A live worker always has a next step; it never waits for the lock in vain |
| `PlaybackProtocol.ComesToRest` | custom_components/passion_wave/broker.py:667-744 | Between two submissions the workers take at most 28 steps from await to await, whatever calls and confirmations return, and then none is left |
| `PlaybackProtocol.WorkerAfterCancel` | custom_components/passion_wave/broker.py:131-137 | After cancellation a worker is created exactly when a submitter that was still waiting goes on after the old worker is gone |
| `PlaybackProtocol.CancelledPlaysOn` | custom_components/passion_wave/broker.py:763-774 | It happens: a request that waits for the lock behind a callback goes on after the coordinator was cancelled, and is played |
| `UpdateJob.S3OnlyAfterBridge` | custom_components/passion_wave/update.py:432-442 | An S3 install is issued only after the bridge reported the version in the same job run |
| `UpdateJob.NotFlashedIfCurrent` | custom_components/passion_wave/update.py:463-466 | A processor that reports the version when the job comes to it is not flashed |
| `UpdateJob.DoneMeansBoth` | custom_components/passion_wave/update.py:432-444 | A job that succeeds has seen both processors report its version |
| `UpdateJob.JobSucceeds` | custom_components/passion_wave/update.py:425-461 | Such a job, first run or resumed, ends complete with nothing on record |
| `UpdateJob.SuccessIsForgotten` | custom_components/passion_wave/update.py:452-458 | The end of a job leaves a record exactly if it leaves a target, and then as a failure |
| `UpdateJob.InterruptedIsResumed` | custom_components/passion_wave/update.py:683-701 | Whatever interrupted a job, also one resumed and not yet begun, the next start takes it up for the same version or, if both processors report it by then, closes it as complete |
| `UpdateJob.InterruptionKeepsRecord` | custom_components/passion_wave/update.py:370-378 | A crash or the removal of the entity leaves the record of the running job, and not as a failure |
| `UpdateJob.FailureStays` | custom_components/passion_wave/update.py:697-698 | A failed job is not taken up again by itself |
| `UpdateJob.UpdateClosesIff` | custom_components/passion_wave/update.py:237-276 | An update of the entity closes what is on record as complete if and only if both processors report its version, and changes nothing else |
| `UpdateJob.FailsIff` | custom_components/passion_wave/update.py:447-451 | An exception ends the job as failed exactly if not both processors report the version or the target was reconciled away during the run |
| `UpdateJob.ReconciledJobCanFail` | custom_components/passion_wave/update.py:259-260 | It happens: both processors run the version and the job still reports a failure |
| `UpdateTransport.WaitForVersion` | custom_components/passion_wave/update.py:630-681 | The loop with its error exits and at most two metadata reloads of its own decides as the specification does |
| `UpdateTransport.WaitsMeansSeen` | custom_components/passion_wave/update.py:630-681 | Waiting succeeds only if the version was seen within 300 s, at a look or right after a reload |
| `UpdateTransport.SeenMeansWaits` | custom_components/passion_wave/update.py:630-681 | And it does succeed if the version is seen in time with no error status before, however the reloads fell |
| `UpdateTransport.DueReloadCounts` | custom_components/passion_wave/update.py:664-678 | So it does if a reload that is due finds the version |
| `UpdateTransport.ErrorEndsWait` | custom_components/passion_wave/update.py:648-656 | An error status before the version is seen ends the wait, with success if and only if it is the one worth a reload and that finds the version |
| `UpdateTransport.WaitForStart` | custom_components/passion_wave/update.py:567-628 | The loop that waits for the start of a diagnostic install decides as the specification does |
| `UpdateTransport.StartNeedsEvidence` | custom_components/passion_wave/update.py:567-628 | The start is confirmed only by the version itself or by a status newer than the request |
| `UpdateTransport.UnderWayMeansStarts` | custom_components/passion_wave/update.py:582-611 | And it is confirmed if within 90 s the version is seen, or a fresh status of an update started or ended, with no fresh error before |
| `UpdateTransport.IdleReloadCounts` | custom_components/passion_wave/update.py:612-622 | So it is if the reload for the first fresh idle finds the version |
| `UpdateTransport.LastMeansStarts` | custom_components/passion_wave/update.py:623-628 | And, with no fresh error in time, if the reload at the end finds it |
| `UpdateTransport.DeniedDoesNotStart` | custom_components/passion_wave/update.py:593-600 | A fresh error before any such evidence is final |
| `UpdateTransport.RefreshLegacy` | custom_components/passion_wave/update.py:322-342 | The legacy entity is good for the install exactly if it advertises the version within ten polls |
| `UpdateTransport.InstallEndpoint` | custom_components/passion_wave/update.py:463-517 | Issues an install exactly if the version is missing and a transport can be used, and succeeds exactly if the version is there or the install starts, the version comes in time, and for the bridge the resynchronisation goes through |
| `UpdateTransport.SuccessMeansSeen` | custom_components/passion_wave/update.py:463-517 | A visit succeeds only if the processor was seen with the version |
| `UpdateTransport.StartedInstallSucceeds` | custom_components/passion_wave/update.py:463-517 | And an install that is seen under way, after which the version comes in time and for the bridge the resynchronisation goes through, is issued and succeeds |
| `UpdateTransport.LegacyInstallSucceeds` | custom_components/passion_wave/update.py:344-368 | So is and does one by the legacy entity that advertises the version and does not refuse |
| `UpdateTransport.CurrentIsLeftAlone` | custom_components/passion_wave/update.py:463-466 | A processor that has the version is not flashed, and that is success |
| `UpdateTransport.IssuedIff` | custom_components/passion_wave/update.py:463-517 | An install is issued if and only if the version is missing and there is the diagnostic action, or a legacy entity that is ready and advertises the version; without one the visit fails |
| `UpdateTransport.FailsIfRefused` | custom_components/passion_wave/update.py:463-517 | A call that raises, a refusal, or a bridge that cannot be resynchronised makes the visit fail |
| `UpdateJob.FirmwareUpdate.Reconcile` | custom_components/passion_wave/update.py:262-276 | Clears the job exactly if both processors report its target |
| `UpdateJob.FirmwareUpdate.SaveJob` | custom_components/passion_wave/update.py:370-378 | Stores target and phase, or removes the record without a target |
| `UpdateJob.FirmwareUpdate.Load` | custom_components/passion_wave/update.py:683-701 | Resumes, closes or shows as failed what is on record |
| `UpdateJob.FirmwareUpdate.RunJob` | custom_components/passion_wave/update.py:425-461 | An undisturbed run: which installs it issues, and that it ends complete and off the record, or failed and on it |

## Left out

- UART, GPIO, heap, mDNS and HTTP calls: the UART is a byte sequence, the heap and the link answer yes or no, the HTTP client is any sequence of reads.
- Counters of the link: they are natural numbers here, 32-bit numbers that wrap in the source.
- Clock: millis() wraps after 49 days; the retry times are compared in a way that does not survive that, and the model's clock does not wrap.
- Stale bytes of ring slots beyond a payload's length: a frame holds only its payload.
- LibraryProxyServer is two classes here, `CatalogCache` for set, set_page and entry and, over it, `LibraryServer` for the transfer; the protocol fills the cache with any blob within the limit.
- The mutual exclusion of the bulk senders (the 16 ms slot of `esphome/dual-mcu-esp32-core.yaml:3194-3207`): polls may happen at any time, which allows more than the scheduler does.
- Memory ordering between the two cores: a step of the download task or of the poll loop is atomic.
- resolve_local_url_ and the choice of URLs: whether a URL fits is an input.
- Overlong cover URLs: normalisation in `esphome/dual-mcu-esp32-core.yaml:2121-2141` empties them, so a presentation's URL has at most 512 bytes; only `CoverUrlSender.Queue` meets longer ones.
- The S3's own optimistic changes of title, artist and cover while the user picks something: the display is changed by frames only.
- Other fields of MEDIA_TEXT (friendly name, album artist): the bridge does not send the second, the first does not belong to a presentation.
- Eagerly started asyncio tasks: a worker's first step comes after the step that created it.
- What happens to a play_media call the worker was cancelled in: the model ends it.
- The progress percentages and texts of an update, and how entities and services are looked up: waiting sees any sequence of versions, statuses and reloads.
- The store of the update entity fails never, and async_update saves in the same step in which it reconciles.
- Two update jobs at once, which a reconciliation during a run would permit.
- Fixed-layout state messages, encoder accounting, weather, forecasts, light catalogs, configuration flow and the user interface: they would add only easy members.
- Normalisation of browse pages: it skips children, so that walking it by its returned count is no partition; the walk proved is that of filter_library_page.
- Wrappers, bytes and words: their helpers are not listed above.
