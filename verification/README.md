# NexShell: a model of its hard parts, with proofs

NexShell is a desktop SSH client with an agent that works on servers for its user. This
project models the parts of it whose correctness is not visible in any one function, and
proves what they promise:

* **File transfer.** The bytes of the ZMODEM link (`Wire`, `Codec`), the two machines that send
  and receive files (`Sending`, `Receiving`), the two joined by a line that damages subpackets
  (`Session`, `SessionProofs`), the same machines run by imperative code over byte streams
  (`Transfer`, `Driving`, `OnTheWire`) and over a line that damages bytes (`DamagedLine`), a
  peer of another make that streams its files and chooses its formats (`Streaming`,
  `StreamedSession`), what each side does about a peer that skips, hesitates, repeats or breaks
  rules (`PeerLaws`), every byte in the numbers of the standard (`WireLaws`), the router that
  takes transfers out of terminal output (`TerminalStream`, `Router`), and both together
  (`RoutedTransfer`, `SeveralTransfers`). The format is that of Forsberg, "The ZMODEM Inter
  Application File Transfer Protocol", sections 7.2, 7.3.3, 7.4, 8.2 and 11.
* **The execution ledger.** Concurrent executions, each split into the steps between which
  others can come, with crashes and recovery (`Ledger`, `LedgerProofs`), and what its records
  say (`LedgerLaws`); the same as objects (`Store`, `Executor`).
* **Authority and verification.** What a grant allows (`Policy`, `Paths`), tasks, runs,
  decisions of the user, checks and the ledger as one state machine whose agent may ask for
  anything and whose user calls are split into their single reads and writes of the store
  (`World`, `WorldSteps`), the objects whose methods are such steps (`Service`, `Verification`),
  what holds in all histories (`Authority`, `Renewal`, `Completion`), the same with the
  operations by their names (`Conduct`) and with what runs, renewals, checks and calls go back
  to (`RunLaws`), and histories in which a stale copy does harm (`StaleCopies`,
  `StaleCompletion`).
* **The live view.** Folding the event log (`ChatLog`), doing it piece by piece and in place
  (`TaskHistory`), what is shown of it in the end (`Showing`), subscriptions (`Changes`), and
  the loop that must not miss a change in any interleaving (`LiveView`).
* **Smaller pieces.** Pages of UTF-8 text (`LocalFiles`, `Utf8`), versions of notes
  (`MemoryVersions`, `MemoryLaws`, `Memory`), repair of a message history (`HistoryRepair`), and
  quoting for a shell (`Shell`, `Snippets`).

Where the original changes state step by step, a class or a method with loops does the same
here, and its contract ties it to a function on values; the theorems are about those
functions. A subpacket that is damaged on the line is one whose checksum fails; headers are
reliable, because both sides give up on a bad one. A digest is injective, so a request, a
host or a note stands for its own digest; identifiers that the original draws at random have
not been drawn before; the 32-bit checksum is any function of the bytes, and where it has to
tell two prefixes apart that is said. Time is a number, never negative, that may go either way.

Behaviour of the code that differs from what one might expect, and what is proved instead:

* Renewing a grant voids the older ones **exactly if nobody holds a copy of the task with one
  of them**: a run stores its copy when it ends, a start stores the copy it has read before
  making model and tools, and a submission the copy it has read before adding its text
  (`Renewal.RenewalVoidsUnlessHeld`, `Renewal.OldGrantReturns`). Each of the three can bring an
  older grant back, and with it what was accepted under it (`StaleCopies.LongRunRevives`,
  `StaleCopies.StaleStartRevives`, `StaleCopies.StaleSubmissionRevives`).
* A run marks its task as completed only when everything is checked. Afterwards the mark stays
  true **except for a stale renewal**: one that has read the task as completed and stores that
  copy after the task has gone on. Then a completed task has a run
  (`Completion.RestsUnlessStale`, `StaleCompletion.StaleRenewalMisleads`), and recovery leaves
  it completed although an outcome of its own is unknown
  (`StaleCompletion.RecoveryLeavesCompleted`).
* A failed load of the live view is not repeated. Exactly when no wake-up arrived during the
  load, the view stays behind until the next commit or choice
  (`LiveView.FailureBlindsUnlessWoken`, `LiveView.BlindnessStays`, `LiveView.FailureCanBlind`).
* Generations of notes are 64 bits wide, so a backend expires unless the settings changed a
  multiple of 2^64 times (`MemoryVersions.BackendExpires`).
* A candidate header at the very end of terminal output is dropped, and the bytes of a
  rejected one are not searched again; `TerminalStream.Conserved` says exactly when nothing is
  lost. A rejected candidate is displayed only with what comes after it, because the loop goes
  on without looking whether more has arrived; `Routing.Router.Pump` says what is held back
  whenever the router waits.
* A subpacket of more than 1 MiB can be written but not read back
  (`RoundTrip.SubpacketRoundTrip`). Behind noise without ZDLE a header is found exactly if
  the search takes less than 65536 turns over the noise, where a run of stars is one turn
  however long it is (`RoundTrip.HeaderFoundIffTurnLeft`).
* In a command template that is otherwise words and operators every value stays a part of a
  word exactly if no place stands within quotes; there the quotes put around a value do not
  protect it (`Snippets.WordsIffUnquoted`, `Snippets.PlaceInQuotes`). A template with a
  here-document is never words and operators (`Snippets.HereDocumentIsMore`).

## Model

| member | source | states |
|---|---|---|
| Crc16.CRC16 | internal/transfer/zmodem/codec.go:63-76 | The byte-and-bit loop computes the register function that the lemmas below are about |
| Crc16.CrcIsRemainder | internal/transfer/zmodem/codec.go:63-76 | The checksum is r if and only if r is the remainder of message·x^16 modulo x^16+x^12+x^5+1 |
| Crc16.CrcLinear | internal/transfer/zmodem/codec.go:63-76 | The checksum of the xor of two messages is the xor of their checksums |
| Crc16.CrcSelfCheck | internal/transfer/zmodem/codec.go:63-76 | A message followed by its own checksum, high byte first, has checksum zero |
| Crc16.BurstDetected | internal/transfer/zmodem/codec.go:63-76 | Messages of one length that differ at most in two adjacent bytes have the same checksum only if they are equal |
| Codec.Codec.ReadRaw | internal/transfer/zmodem/codec.go:90-100 | Reading one byte from the cursor skips flow control and leaves the cursor behind the byte |
| Codec.Codec.ReadEscaped | internal/transfer/zmodem/codec.go:101-125 | Result and new cursor are those of the escape grammar, with its three errors |
| Codec.Codec.ReadFrameHeader | internal/transfer/zmodem/codec.go:126-213 | The resynchronising header reader, all formats and errors, as a function of the remaining bytes |
| Codec.Codec.ReadHex | internal/transfer/zmodem/codec.go:157-211 | A hex header: fourteen digits read without stripping flow control, checksum, and the line end that may follow |
| Codec.Codec.EscapeBytes | internal/transfer/zmodem/codec.go:214-229 | The escaping loop yields the escaped form used in the round trips |
| Codec.Codec.ReadSubpacket | internal/transfer/zmodem/codec.go:249-301 | The subpacket reader as a function of the remaining bytes, with its limit and errors |
| Codec.Codec.WriteHeader | internal/transfer/zmodem/codec.go:77-89 | Appends exactly the encoded header to what was sent |
| Codec.Codec.WriteData | internal/transfer/zmodem/codec.go:230-248 | Appends exactly the encoded subpacket to what was sent |
| Codec.Codec.Cancel | internal/transfer/zmodem/codec.go:302-304 | Appends eight ZDLE and eight backspaces |
| RoundTrip.BodyWellEscaped | internal/transfer/zmodem/codec.go:214-248 | An encoded subpacket contains no flow control byte and no two adjacent ZDLE |
| RoundTrip.SubpacketRoundTrip | internal/transfer/zmodem/codec.go:230-301 | With flow control inserted anywhere before the last byte and anything behind, reading gives back payload and marker and stops in the right place, if and only if the payload has at most 1 MiB |
| RoundTrip.EncodedDataReads | internal/transfer/zmodem/codec.go:230-301 | What WriteData writes is read back, leaving at most the XON it ends with |
| RoundTrip.DamagedSubpacket | internal/transfer/zmodem/codec.go:249-301 | With any other payload in place of the one that was sent, escaped as it should be, the reader stops right behind the subpacket, and takes it exactly if the checksums agree |
| RoundTrip.BurstIsNoticed | internal/transfer/zmodem/codec.go:249-301 | A change of one payload byte, or of two next to each other, is always refused, and the next read begins behind the subpacket |
| RoundTrip.HeaderRoundTrip | internal/transfer/zmodem/codec.go:77-213 | Behind noise without ZDLE that leaves a turn of the search, stray and trailing stars included, a written header is found with its type and data, and the rest is left |
| RoundTrip.HeaderFoundIffTurnLeft | internal/transfer/zmodem/codec.go:126-213 | For all noise without ZDLE a header is found if and only if the search takes less than 65536 turns over the noise |
| RoundTrip.HeaderFoundBehindShortNoise | internal/transfer/zmodem/codec.go:126-213 | Behind less than 65536 bytes of noise without ZDLE, flow control not counted, a header is always found; behind noise without stars only then |
| RoundTrip.ConversationRoundTrip | internal/transfer/zmodem/codec.go:77-301 | Any sequence of headers and subpackets written one after the other is read back in order, nothing in between misread |
| RoundTrip.BinaryHeaderRoundTrip | internal/transfer/zmodem/codec.go:157-192 | Behind noise that leaves a turn of the search, and with flow control inserted, a header in binary with a 16-bit checksum (`A`) or a 32-bit one (`C`), written by the standard's own encoder, is found with its type, its data and that width, and the rest is left |
| RoundTrip.AnyEscapingReads | internal/transfer/zmodem/codec.go:249-301 | A subpacket is read back whatever its writer chooses to escape, with a checksum of either width and flow control anywhere |
| RoundTrip.HexIsChecked | internal/transfer/zmodem/codec.go:157-191 | Any seven bytes in hexadecimal are a header if their checksum is right, and BadChecksum otherwise |
| RoundTrip.BinaryIsChecked | internal/transfer/zmodem/codec.go:168-192 | Any seven or nine bytes in binary are a header if the checksum of that width is right, and BadChecksum otherwise |
| RoundTrip.StandardLineEnd | internal/transfer/zmodem/codec.go:193-209 | The line end that the standard has, a newline with its eighth bit set, is taken with the header |
| RoundTrip.CancelIsHeard | internal/transfer/zmodem/codec.go:302-304 | What a side writes that gives up ends the search for a header behind any noise, and a subpacket after any payload |
| WireLaws.NumbersAreStandard | internal/transfer/zmodem/codec.go:14-36 | Header types, end markers and control bytes have the numbers of section 11 of the ZMODEM document, the generator is x^16+x^12+x^5+1, and giving up is eight cancels and eight backspaces |
| WireLaws.HeaderIsWritten | internal/transfer/zmodem/codec.go:77-89 | A written header is 20 or 21 bytes: the magic, fourteen lower-case digits, a line end, and XON exactly if it is neither ZACK nor ZFIN |
| WireLaws.DataIsWritten | internal/transfer/zmodem/codec.go:214-248 | In a written subpacket no byte but ZDLE is a control character of either half, DEL or 0xff; XON follows exactly the marker that waits for an answer |
| WireLaws.OnlyFlowIsSkipped | internal/transfer/zmodem/codec.go:90-100 | A reader passes over XON and XOFF and over no other byte |
| WireLaws.EscapeMeans | internal/transfer/zmodem/codec.go:101-125 | What each byte behind a ZDLE stands for, or which error it is |
| WireLaws.TokenMeans | internal/transfer/zmodem/codec.go:256-298 | In a payload the same, but for the four markers that end it |
| WireLaws.LineEndIs | internal/transfer/zmodem/codec.go:193-209 | What is taken behind a hexadecimal header, and what a stream that ends there gives |
| WireLaws.FourAreTooFew | internal/transfer/zmodem/codec.go:133-137 | Four cancels are noise, five (`RoundTrip.CancelIsHeard`) are not |
| Metadata.MetadataRoundTrip | internal/transfer/zmodem/transfer.go:80-80 | Metadata as sent is understood as the same name and size, and refused exactly if the name is unsafe |
| Metadata.AnyMetadata | internal/transfer/zmodem/transfer.go:247-259 | Any metadata of a sender: a name in front of the first NUL and a number behind white space, whatever follows, is taken exactly if the name stays inside the directory and the number is a size |
| Metadata.OnlyInside | internal/transfer/zmodem/transfer.go:185-187 | A name that is taken is not empty, not `.` or `..`, and has no slash, backslash or NUL |
| Metadata.SizesAreNumbers | internal/transfer/zmodem/transfer.go:256-259 | A size is decimal, perhaps signed, and never below zero; nothing but digits and a sign is one |
| PeerLaws.FileIsDescribed | internal/transfer/zmodem/transfer.go:80-80 | What a sender says of a file, byte for byte |
| Receiving.ReceiverStep | internal/transfer/zmodem/transfer.go:222-383 | Every reaction of the receiver keeps the invariant, is honest to the peer, and only adds to files |
| Receiving.ReceiverSafe | internal/transfer/zmodem/transfer.go:188-385 | Against any peer: the open file is its kept prefix and the accepted subpackets, its length is the position and at most the advertised size, offsets on the wire are that position, a finished file has the advertised size, and nothing outside is changed |
| PeerLaws.OnlyExpectedGoesOn | internal/transfer/zmodem/transfer.go:222-383 | Between files the receiver accepts exactly the six headers that fit its state, with the right offset; any other ends the session and changes nothing |
| PeerLaws.OnlyAwaitedIsTaken | internal/transfer/zmodem/transfer.go:200-414 | A session begins with ZRQINIT and nothing else; while the checksum of a beginning is awaited only it, if it is right, or the same file again goes on |
| PeerLaws.OnlyFittingIsTaken | internal/transfer/zmodem/transfer.go:241-273 | A file is refused exactly for its metadata, for something else in its place, or for being shorter than what is there; no file that is there is changed by its announcement |
| PeerLaws.ExcessIsRefused | internal/transfer/zmodem/transfer.go:317-319 | More data than announced ends the session before any of it is written |
| PeerLaws.FailedReadsEnd | internal/transfer/zmodem/transfer.go:310-316 | A failed read ends the session, but for one of file data, which is asked for again from the offset that was reached |
| PeerLaws.RepeatsAreBorne | internal/transfer/zmodem/transfer.go:387-414 | The same file announced again while a checksum is awaited is borne four times, not five; another file not at all |
| PeerLaws.AttentionIsAcknowledged | internal/transfer/zmodem/transfer.go:235-241 | An attention string is acknowledged and forgotten |
| PeerLaws.EndIsAwaited | internal/transfer/zmodem/transfer.go:351-378 | Up to thirty-one letters before the two that end a session are passed over; a stream that ends there will do |
| PeerLaws.OneLetterIsNotEnough | internal/transfer/zmodem/transfer.go:368-376 | One of the two letters alone counts as another that is passed over |
| PeerLaws.SkippedIsPassedOver | internal/transfer/zmodem/transfer.go:90-92 | A file that the peer skips is never sent, whatever it says later; the next one is offered, or the end of the session |
| PeerLaws.ReadyIsAnnouncedTo | internal/transfer/zmodem/transfer.go:38-48 | Exactly after ZRINIT the next file is announced, or the end, or the session fails if the file cannot be sent |
| PeerLaws.HesitationIsBorne | internal/transfer/zmodem/transfer.go:85-119 | Nineteen headers that say nothing of where to start are borne; after the twentieth the file is sent from its beginning |
| PeerLaws.ChecksumIsGiven | internal/transfer/zmodem/transfer.go:93-109 | A checksum of a beginning that is asked for is given, that of everything for zero, and none of more than there is |
| PeerLaws.StartIsChecked | internal/transfer/zmodem/transfer.go:110-119 | The file is sent from the offset that is asked for, if there is so much of it |
| PeerLaws.DataIsOfTheFile | internal/transfer/zmodem/transfer.go:120-142 | Data on the wire is of the file the sender has come to, from the offset in front of it, 8 KiB or what is left |
| PeerLaws.AnswerIsChecked | internal/transfer/zmodem/transfer.go:147-168 | A chunk is answered by the offset behind it or by a place to go on from, twenty times in a row at most; anything else fails the session |
| PeerLaws.FarewellIsAwaited | internal/transfer/zmodem/transfer.go:49-62 | Nine headers before the farewell are passed over, the tenth is one too many |
| SessionProofs.StepKeeps | internal/transfer/zmodem/transfer.go:20-385 | Every move of sender, receiver or line keeps both sides in step |
| SessionProofs.SafeDelivery | internal/transfer/zmodem/transfer.go:20-385 | Whenever both sides return without error, the directory is the old one with every file replaced by its source |
| SessionProofs.FileArrives | internal/transfer/zmodem/transfer.go:64-183 | Then the last file sent under a name is there byte for byte, resumed or not |
| SessionProofs.OthersUntouched | internal/transfer/zmodem/transfer.go:188-385 | Then every other file is as it was |
| SessionProofs.MoveDescends | internal/transfer/zmodem/transfer.go:117-168 | Every move makes the rank of the session smaller: bytes left, then retries left, then messages under way |
| SessionProofs.NotStuck | internal/transfer/zmodem/transfer.go:20-385 | Unless it is over, some side can move |
| SessionProofs.RetryLimit | internal/transfer/zmodem/transfer.go:156-164 | One answer to a damaged copy: the sender gives up exactly if it has repeated the chunk twenty times, and keeps file and offset otherwise |
| SessionProofs.LostAfterTwentyOne | internal/transfer/zmodem/transfer.go:120-172 | In every run that nobody cancels, a chunk damaged in every copy loses the session with the twenty-first in a row and not before; the first copy that comes through takes the sender on behind it |
| SessionProofs.CertainDelivery | internal/transfer/zmodem/transfer.go:20-385 | If every file is welcome and no chunk is damaged more than twenty times in a row, every run ends, within the rank, with everything delivered |
| Driving.ReceivesIsRun | internal/transfer/zmodem/transfer.go:188-385 | What the byte-level receiver does is a run of the machine, so its safety against any peer holds on bytes |
| Transfer.ReadResumeCrc | internal/transfer/zmodem/transfer.go:390-414 | The loop that waits for a checksum makes the machine's steps, tolerating four repeated announcements |
| Transfer.ReceiveFile | internal/transfer/zmodem/transfer.go:242-301 | Opening a file, with or without resuming, makes the machine's steps and leaves the directory the machine has |
| Transfer.ReceiveData | internal/transfer/zmodem/transfer.go:302-336 | The subpacket loop makes the machine's steps |
| Transfer.ReadFinal | internal/transfer/zmodem/transfer.go:351-378 | The end of a session makes the machine's steps |
| Transfer.ReceiveLoop | internal/transfer/zmodem/transfer.go:222-384 | The header loop makes the machine's steps until it is finished or stopped |
| Transfer.Receive | internal/transfer/zmodem/transfer.go:188-385 | Result, directory, bytes sent and bytes left are those of the machine, and failure sends a cancel sequence |
| Streaming.StreamArrives | internal/transfer/zmodem/transfer.go:302-350 | A peer that streams: for every content, every offset kept, and every cut of the rest into frames and subpackets, ended by ZCRCG or ZCRCQ within a frame and ZCRCE or ZCRCW at its end, the file is complete and closed, with one ZACK for each subpacket that asks and one READY at the end |
| StreamedSession.SessionArrives | internal/transfer/zmodem/transfer.go:188-385 | Any number of such files, the beginnings of some there already: all of them are in the directory, and the peer has exactly the answers it waits for |
| StreamedSession.AnyShapeArrives | internal/transfer/zmodem/codec.go:126-301 | A header in each of the three formats is taken, and the subpackets behind it with the checksum of its width |
| StreamedSession.SessionReceived | internal/transfer/zmodem/transfer.go:188-385 | The same session on bytes, each header in any of the three formats: the receiver finishes with every file, has written those answers, and leaves what follows |
| StreamedSession.ReceiveStreamed | internal/transfer/zmodem/transfer.go:188-385 | So does the method that receives |
| Transfer.StartFile | internal/transfer/zmodem/transfer.go:64-119 | Offering a file makes the machine's steps, including the fall to offset zero after twenty unhelpful headers |
| Transfer.SendChunks | internal/transfer/zmodem/transfer.go:120-172 | The chunk loop makes the machine's steps |
| Transfer.SendFile | internal/transfer/zmodem/transfer.go:64-183 | One file makes the machine's steps up to the next offer |
| Transfer.SendFinal | internal/transfer/zmodem/transfer.go:49-62 | The closing handshake makes the machine's steps |
| Transfer.Send | internal/transfer/zmodem/transfer.go:20-63 | Result, bytes sent and bytes left are those of the machine, and failure sends a cancel sequence |
| OnTheWire.MessageArrives | internal/transfer/zmodem/codec.go:77-301 | Each message of the protocol, written as bytes, is the same message when read |
| OnTheWire.WireDelivery | internal/transfer/zmodem/transfer.go:20-385 | Two byte streams that answer each other, no header read beforehand: if both calls succeed the directory is the expected one, and if every file is welcome both do succeed |
| OnTheWire.StreamsExist | internal/transfer/zmodem/transfer.go:20-385 | For all files the destination accepts, two such streams exist, both calls succeed on them, and every file arrives |
| DamagedLine.BurstDamages | internal/transfer/zmodem/codec.go:230-301 | Every change of one payload byte, or of two next to each other, is a damage of the kind the line may do |
| DamagedLine.StepIsMove | internal/transfer/zmodem/transfer.go:20-385 | Whatever the line makes of the subpackets, each step of a side on bytes is a move of the session on messages, one with a damaged message where a checksum has told |
| DamagedLine.LinkRunIsRun | internal/transfer/zmodem/transfer.go:20-385 | So every run on bytes is a run of the session |
| DamagedLine.DeliveredThroughDamage | internal/transfer/zmodem/transfer.go:20-385 | However much is damaged, when both sides return without error the directory is the old one with every file replaced by its source |
| DamagedLine.CertainThroughDamage | internal/transfer/zmodem/transfer.go:20-385 | If the files are welcome and no chunk is damaged more than twenty times in a row, every run on bytes ends, within the rank, with everything delivered |
| Routing.PacketReader.Read | internal/transfer/router.go:33-52 | Packets of any cut are read as one stream, in order, nothing lost |
| Routing.Router.Settle | internal/transfer/router.go:145-149 | What cannot begin the magic any more is displayed; what is left begins it |
| Routing.Router.Matched | internal/transfer/router.go:150-223 | A candidate header is rejected, skipped or handed to a transfer, with the quirks at the end of the stream |
| Routing.Router.Pump | internal/transfer/router.go:124-230 | What is displayed in the end is a function of the stream alone, whatever the cut; and for text, whenever the loop waits for a packet, everything taken is displayed but the longest end that begins the magic, or the candidate header at the end |
| TerminalStream.Conserved | internal/transfer/router.go:138-230 | Everything is displayed as it came if and only if every magic is followed by a rejected header and the stream does not end inside one |
| TerminalStream.NoOpeningIsText | internal/transfer/router.go:150-164 | A stream in which no magic is followed by a good or an unfinished header is such a text |
| TerminalStream.NothingInvented | internal/transfer/router.go:124-230 | What is displayed is a subsequence of the stream |
| TerminalStream.TextShown | internal/transfer/router.go:138-164 | Text in front of a magic is displayed whatever the magic leads to |
| TerminalStream.RejectedIsShown | internal/transfer/router.go:155-164 | Fourteen bytes behind a magic that are no header with a good checksum are displayed with it, and the search goes on behind them |
| TerminalStream.CutShortIsLost | internal/transfer/router.go:155-176 | Of a stream that ends within a header, or before it is certain what follows, the text in front is displayed and no more |
| TerminalStream.LineEndsAre | internal/transfer/router.go:167-176 | At most two bytes behind a header are taken for its line end, each a carriage return or a newline of either kind |
| TerminalStream.CandidateIs | internal/transfer/router.go:159-166 | A candidate is a header exactly if it is hexadecimal with a good checksum |
| TerminalStream.HeaderIsTaken | internal/transfer/router.go:165-189 | Of all good headers those of type 0 and 1 start a transfer, which is given all that follows; any other is taken out and the rest is displayed |
| TerminalStream.TransferHidden | internal/transfer/router.go:150-229 | Text, a transfer that reads its own bytes, and what follows: the transfer leaves no trace |
| TerminalStream.TailIsLongest | internal/transfer/router.go:145-149 | What is pending is the longest end of the bytes taken that begins the magic |
| RoutedTransfer.DownloadDelivers | internal/transfer/router.go:186-223 | A download behind the header the router has read: the other end writes what a sender writes that begins by itself; if both sides succeed every file has arrived and exactly the session was read, and if the files are welcome both do |
| RoutedTransfer.DownloadExists | internal/transfer/router.go:186-223 | For all files that are welcome and whatever comes later there is such a download |
| RoutedTransfer.DownloadHidden | internal/transfer/router.go:138-229 | One download: the terminal shows the text before it and what it shows of the bytes after it, and nothing of the download |
| RoutedTransfer.UploadDelivers | internal/transfer/router.go:186-223 | The same for files that go the other way: the other end writes what a receiver writes that was asked |
| RoutedTransfer.UploadExists | internal/transfer/router.go:186-223 | Such an upload exists for all files that are welcome at the other end |
| RoutedTransfer.UploadHidden | internal/transfer/router.go:138-229 | One upload: the terminal shows nothing of it either |
| SeveralTransfers.AllHidden | internal/transfer/router.go:124-230 | Any number of transfers in either direction on one channel, each finding the directory as the earlier ones have left it: the terminal shows the texts between them and nothing else, and the directory in the end has the files of all of them |
| SeveralTransfers.ChannelExists | internal/transfer/router.go:186-223 | For every plan of transfers whose files are welcome where they go there is such a channel |
| LedgerProofs.StepKeeps | internal/store/store.go:138-235 | Every step of any call, crash or recovery keeps the invariant and every settled row |
| LedgerProofs.RunKeeps | internal/store/store.go:138-235 | So does every history |
| LedgerProofs.SettledForGood | internal/store/store.go:160-234 | A record that is no longer running is the same for ever after, and no record disappears |
| LedgerProofs.DispatchedAtMostOnce | internal/remote/executor.go:110-202 | In no history is one call of one task dispatched twice, not even with other arguments |
| LedgerProofs.DispatchesRecorded | internal/remote/executor.go:110-125 | Every dispatch has its record |
| LedgerProofs.OneMutationPerHost | internal/remote/executor.go:97-106 | Two calls of shell, terminal_write, upload_local, file_write, service_restart or package_install for one host are never past its lock at once |
| LedgerProofs.RestartSettles | internal/store/store.go:188-220 | When recovery is complete nothing is running |
| LedgerLaws.DispatchIsOnRecord | internal/remote/executor.go:110-125 | In every history, when a request is dispatched there is a record of just it, running, with its artifact, that was not dispatched before |
| LedgerLaws.OutcomeIsRecorded | internal/remote/executor.go:202-218 | In every history, when it comes back its own record gets the outcome and no other record changes; an error without exit status is unknown unless the operation is one of seven by name |
| LedgerLaws.NoArtifactFails | internal/remote/executor.go:114-119 | A request without a place for its output is marked as failed, was not dispatched, and its call only has to give its lock back |
| LedgerLaws.RecoveryMarksRunning | internal/store/store.go:188-220 | In every history, after a crash and its recovery exactly what was running is unknown, every other record is as it was, and nothing was dispatched |
| StoreObject.Store.Claim | internal/store/store.go:138-159 | A new call adds its intention and gets it; a known call gets the record there is; other arguments are refused; nothing else changes |
| StoreObject.Store.Finish | internal/store/store.go:160-167 | Replaces the payload of exactly the rows with the identifier |
| StoreObject.Store.Results | internal/store/store.go:168-187 | The results of a task in row order |
| StoreObject.Store.Recover | internal/store/store.go:188-235 | Exactly the running records become unknown; running and waiting tasks are interrupted and every grant expires |
| ExecutorObject.Executor.Execute | internal/remote/executor.go:93-219 | A call without authority leaves no trace, a known call is not dispatched, a new one is recorded and dispatched once and ends with the right status; the whole is a schedule of the ledger's steps |
| ExecutorObject.ScheduleOf | internal/remote/executor.go:93-219 | One call alone takes the ledger from rest to rest with exactly that record |
| Policy.ScopeIsExact | internal/agent/policy.go:24-72 | A request is automatic if and only if host, identity, time, operation and resource are all granted, said with the operations by their names; it is refused outright if and only if it is not admissible |
| Policy.LocalScopeIsExact | internal/agent/policy.go:77-96 | A local request is automatic if and only if its path is below a granted root and nothing else is wrong, and refused exactly if something else is |
| Policy.NamedThingsAreGranted | internal/agent/policy.go:64-71 | No hash, reading or writing of a file, restart of a service or installation of a package is automatic unless the grant names that very thing |
| Policy.OperationsAreThese | internal/remote/executor.go:27-29 | Every operation on a host is one of seven that look or one of six that may alter it, and never both; the tests of the code are about just these |
| Paths.WithinIsPrefix | internal/localfiles/files.go:51-54 | The test by relative path holds exactly if the components of the root begin those of the path |
| Paths.CleanIs | internal/localfiles/files.go:29-34 | A path is clean exactly if it is the root, or each of its slashes is followed by a name other than `.` and `..` |
| Paths.PiecesMakePath | internal/localfiles/files.go:51-54 | The components hold no slash, and joined by slashes they are the path again |
| Verification.Verifier.CheckKnownResults | internal/agent/verification.go:19-33 | Succeeds exactly if no outcome on a host is in doubt |
| Verification.Verifier.VerifyResult | internal/agent/verification.go:34-60 | Records a check exactly under the stated conditions, for the host of the evidence |
| Verification.Verifier.VerifyExecution | internal/agent/tools.go:31-43 | The tool refuses an empty expected text, and otherwise records exactly as above |
| Verification.Verifier.AllChecked | internal/agent/verification.go:73-98 | Succeeds exactly if something was done, nothing is in doubt and the last record of every host is the checked one |
| Verification.LatestIsLast | internal/agent/verification.go:78-87 | The map that is filled in row order holds the record after which nothing happened on the host |
| ServiceObject.Service.Decision | internal/agent/tools.go:140-187 | A tool call proceeds, interrupts or is declined exactly as the world's conditions say |
| ServiceObject.Service.RecordApproval | internal/agent/events.go:34-46 | An interruption stores an undecided approval for the grant of the run |
| ServiceObject.Service.Begin | internal/agent/service.go:224-331 | A start undisturbed is the read and then the write of the world's starter, and succeeds exactly when model and tools can be made and the read was possible |
| ServiceObject.Service.StoreRenewed | internal/agent/service.go:100-130 | A renewal undisturbed reads, checks and writes; with open results or an unknown host nothing happens |
| ServiceObject.Service.Renew | internal/agent/service.go:100-131 | The renewed task is stored even if the run cannot be started |
| ServiceObject.Service.Submit | internal/agent/service.go:77-98 | A submission undisturbed reads and writes the task if it waits or was interrupted, and starts it; with a run under way nothing is written |
| ServiceObject.Service.StoreAnswer | internal/agent/service.go:132-149 | A decision is stored exactly for an approval of this task under its current, unexpired grant |
| ServiceObject.Service.Answer | internal/agent/service.go:132-156 | Then the task is started |
| ServiceObject.Service.Cancel | internal/agent/service.go:157-173 | Cancelling a waiting or ready task interrupts it and ends its grant; with a run under way nothing is written |
| ServiceObject.Service.Finish | internal/agent/service.go:337-365 | The end of a run writes its own copy of the task back with the right status |
| Authority.CallWasCleared | internal/agent/tools.go:140-187 | Every call under way was let through, with its request, for the copy of the task its run has |
| Authority.CallWasGuarded | internal/remote/executor.go:97-109 | Every call past the check passed it with the lock of its host in hand |
| Authority.DecisionWasCompared | internal/agent/service.go:141-146 | An acceptance about to be stored was compared with the task under its grant at that moment, while the grant was alive |
| Authority.YesWasSaid | internal/agent/service.go:132-149 | An accepted approval goes back to a decision for exactly that request, made under that grant while it was alive |
| Authority.AttachmentWasRead | internal/agent/attachments.go:18-68 | An attachment about to be stored was handed over for the task under the grant it then had |
| Authority.FileWasHandedOver | internal/agent/attachments.go:18-68 | An attached file goes back to the user handing it over under that grant |
| Authority.ToolHasGrounds | internal/agent/tools.go:150-187 | Whatever is let through is in scope, below a root, handed over or accepted; by name: shell, terminal_write and upload_local were accepted, and what hashes, reads, writes, restarts or installs has its thing in the grant or was accepted |
| Authority.EveryDispatchHasAuthority | internal/agent/tools.go:140-204 | In every history every dispatch was let through on such grounds, named as above, and then passed the check of its grant again behind the lock |
| Conduct.OneChangeAtATime | internal/remote/executor.go:97-106 | In every history, two calls past the lock of one host whose operations are none of the named ones that only look are the same call |
| Conduct.NoChangeInDoubt | internal/agent/tools.go:164-168 | In every history, none of the six changes is let through while an outcome of the task on a host is in doubt |
| Conduct.DoubtIsKept | internal/remote/executor.go:207-214 | A failure without exit status leaves doubt exactly if the operation is none of seven by name; every change is among those that do |
| RunLaws.WhatBecomesOfIt | internal/agent/tools.go:140-187 | A request goes through exactly if it is in scope, handed over or accepted, and the user is asked exactly about the rest that may be asked about and was neither accepted nor declined; no change while something is in doubt |
| RunLaws.AskedIsUnanswered | internal/agent/events.go:34-46 | Asking leaves the request without an answer under the grant of the run, and the run ends waiting |
| RunLaws.CallIsIdentified | internal/remote/executor.go:93-96 | In every history a call names its task, itself, and a host unless it stays on this machine |
| RunLaws.RunHasStarted | internal/agent/service.go:224-245 | In every history the copy a run works with was read by a start from a task without a run, made under this version, with a live grant; only its status is new |
| RunLaws.RenewalIsSettled | internal/agent/service.go:100-130 | In every history a task is renewed only after a moment at which none of its results was in doubt, and with all its hosts known |
| RunLaws.AfterRestart | internal/store/store.go:188-235 | After recovery no task is running or waiting for the user, no other status has changed, and no grant lets anything through |
| RunLaws.CancelEndsGrant | internal/agent/service.go:163-171 | Nor does the grant of a task that was cancelled |
| Conduct.StatusAtEnd | internal/agent/service.go:337-360 | Which end of a run gives a task which status, each of the seven with its exact condition |
| Conduct.EndStores | internal/agent/service.go:361-364 | The end of a run stores its own copy with that status, and nothing else new |
| Conduct.RenewalIsBounded | internal/agent/service.go:112-127 | A renewed grant names what it named before, allows nothing after eight hours, and knows the hosts as they are now |
| Renewal.RenewalVoidsUnlessHeld | internal/agent/service.go:100-131 | Storing a renewed task voids all older grants for ever if and only if no run, start or submission holds a copy of the task with a live one |
| Renewal.OldGrantReturns | internal/agent/service.go:327-364 | If one does, some continuation makes a copy with an older grant the stored task again |
| Renewal.EarlierDecisionsAreVoid | internal/agent/service.go:118-156 | After a renewal with no copy held, a call let through by a decision had that decision made later |
| StaleCopies.StaleStartRevives | internal/agent/service.go:234-331 | A history from the beginning: no run is under way when the renewal is stored, a start stores the copy it had read, and a decision from before lets a call through |
| StaleCopies.LongRunRevives | internal/agent/service.go:337-364 | A history from the beginning: a run outlives the renewal, and its end brings grant and acceptance back |
| StaleCopies.StaleSubmissionRevives | internal/agent/service.go:88-97 | A history from the beginning: with neither run nor start, a submission brings them back |
| Completion.AlwaysSound | internal/agent/service.go:353-365 | In every history every check points to a record it was made for, and calls belong to runs |
| Completion.CompletionIsEarned | internal/agent/service.go:353-359 | In every history, when a run marks its task as completed the last record of every host it touched succeeded, is read-only, not of a terminal, and shows the non-empty verified text, and nothing remote is open |
| Conduct.CompletionRestsOnLooks | internal/agent/service.go:353-359 | In every history, when a run marks its task as completed, the last thing done on each host is observe, service_status, logs, file_read or file_hash, and has succeeded |
| RunLaws.ChecksAreOfLooks | internal/agent/verification.go:34-60 | In every history a check is recorded only when the main agent asks with a text, for a successful look that shows it, by name of the operation, with nothing in doubt and nothing later on that host |
| RunLaws.SuchLooksAreTaken | internal/agent/verification.go:34-60 | And every such look is taken |
| RunLaws.DoneMeans | internal/agent/verification.go:73-98 | A task is done exactly if something was done on a host, nothing there is in doubt, and the last record of every host is the checked one |
| Completion.RestsUnlessStale | internal/agent/service.go:100-130 | As long as every completed task has no run and is covered by its checks, a step changes that exactly if it is a stale renewal |
| Completion.CompletedIsVerified | internal/agent/service.go:353-359 | In every history without stale renewals a completed task has no run and is as when its completion was earned |
| Completion.NotStaleWithoutRun | internal/agent/service.go:100-130 | A renewal is not stale if no run of the task was stored since it read the task |
| StaleCompletion.StaleRenewalMisleads | internal/agent/service.go:100-130 | A history from the beginning in which a stale renewal marks a running task as completed |
| StaleCompletion.RecoveryLeavesCompleted | internal/store/store.go:188-235 | That history carried on: the run dispatches a call, the program ends and recovers, and the task is completed while the outcome of that call of its own is unknown |
| Completion.LaterExecutionInvalidates | internal/agent/verification.go:73-98 | One more execution on a host makes the checks insufficient |
| ChatLog.BeforeIsUpToFirst | internal/ui/conversation_view.go:21-24 | The routing context is cut at its first mark and nowhere else |
| ChatLog.MessagesKeepSpeech | internal/ui/conversation_view.go:18-77 | Merging loses no word of the assistant and leaves no two mergeable neighbours |
| ChatLog.SettledIsRunningWithoutDeltas | internal/ui/task_history.go:46-52 | The two texts kept side by side differ by the deltas of executions only |
| TaskHistory.PiecesMakeAll | internal/store/store.go:118-135 | What was read up to the cursor and what is behind it are together all events of the task |
| TaskHistory.ReadIsWhole | internal/ui/task_history.go:33-56 | After any loads and switches the reader holds what a single reading would give |
| TaskHistory.UnchangedIsSame | internal/ui/task_history.go:45-59 | A load that reports no change has changed nothing that is shown |
| TaskHistory.Reader.Append | internal/ui/conversation_view.go:68-76 | In place, the last message grows or one is added |
| TaskHistory.Reader.Load | internal/ui/task_history.go:33-76 | A load is the reading on values; an update is a fold over all events, in memory of its own |
| TaskHistory.HandedOutStays | internal/ui/task_history.go:67-75 | An update handed out is not altered by any number of later loads, whatever they read or fail to read |
| Showing.MessagesSay | internal/ui/conversation_view.go:18-77 | No word of the user, of a check, of a plan, of a subtask, of memory or of an execution is lost from the messages, none is made up, and the order is kept |
| Showing.MessagesGrow | internal/ui/conversation_view.go:68-76 | What has been shown of a conversation is only ever continued |
| Showing.DeltasShowOnlyWhileRunning | internal/ui/task_history.go:60-63 | An update of a task that is not running is the same with and without any piece of output that came on the way |
| Showing.DisplayTells | internal/ui/task_history.go:59-76 | Every update tells what happened: while running the text holds every delta in order, a failed or blocked task ends with its summary, and behind the messages stand exactly the notices of that status |
| Changes.TaskChanges.SubscribeTask | internal/store/changes.go:13-28 | A new channel with an empty slot, added to the task; already closed if the store is |
| Changes.TaskChanges.Unsubscribe | internal/store/changes.go:29-39 | Closes a channel once; doing it again, or after the store, does nothing |
| Changes.TaskChanges.Notify | internal/store/changes.go:41-50 | Fills the slot of every subscriber of the task and of no one else, never a closed one |
| Changes.TaskChanges.Close | internal/store/changes.go:51-61 | Closes every subscribed channel exactly once |
| LiveView.InvStep | internal/ui/task_history.go:157-208 | Every step of writers, user and reader keeps the invariant |
| LiveView.NoLostWakeUp | internal/ui/task_history.go:157-208 | In every interleaving, what is committed and unread will wake the reader, unless its latest load failed |
| LiveView.DrivenStepsEnd | internal/ui/task_history.go:167-207 | Left to itself the reader comes to rest |
| LiveView.RestIsUpToDate | internal/ui/task_history.go:157-208 | At rest the screen shows a fold over everything committed for the chosen task |
| Showing.ScreenTells | internal/ui/task_history.go:157-208 | In every interleaving, at rest the screen tells all that was committed for the chosen task, in that sense |
| LiveView.ScreenIsOfTheChosen | internal/ui/task_history.go:102-149 | In every interleaving, at rest or not, the screen never shows another task than the one chosen last |
| LiveView.FailureBlindsUnlessWoken | internal/ui/task_history.go:202-205 | A failed load leaves unread events without a wake-up exactly if none arrived during it |
| LiveView.BlindnessStays | internal/ui/task_history.go:202-205 | That lasts until the next commit for the task or the next choice |
| LiveView.FailureCanBlind | internal/ui/task_history.go:202-205 | An interleaving in which it happens |
| LocalFiles.Inspect | internal/localfiles/files.go:192-219 | The loop that gives bytes back computes the page function |
| LocalFiles.CutIsNear | internal/localfiles/files.go:207-214 | However valid text is cut, a character ends at most three bytes before |
| LocalFiles.TextPage | internal/localfiles/files.go:192-219 | A page of text is text, and a truncated one has at least 4093 bytes |
| LocalFiles.PagesAreTheFile | internal/localfiles/files.go:192-219 | Following the offsets succeeds if and only if the file is valid UTF-8 without NUL, and then the pages are texts that join to the file |
| LocalFiles.PageIs | internal/localfiles/files.go:192-219 | A page is the rest of the file if that has at most 4096 bytes, otherwise the longest beginning of 4092 to 4096 bytes that does not cut a character; there is none exactly if the offset is outside, or what the page would hold is not text |
| Utf8.TextIsEncoded | internal/localfiles/files.go:210-216 | What may be on a page is exactly the encoding, by RFC 3629, of a sequence of characters without NUL |
| MemoryVersions.OnlyOccurrence | internal/agent/memory_backend.go:236-244 | With one occurrence an edit replaces just that, whether one or all were asked for |
| MemoryVersions.CountIsOne | internal/agent/memory_backend.go:236-239 | The count is one exactly if nothing else occurs but what overlaps with the first occurrence |
| MemoryLaws.EditSucceeds | internal/agent/memory_backend.go:222-245 | An edit succeeds exactly if the backend is usable, the note is there, the part occurs, just once unless all are asked for, and the new text is small and no credential |
| MemoryLaws.ReplaceAllIs | internal/agent/memory_backend.go:240-244 | An edit of all places cuts the text at each occurrence from the left, as many as were counted, and puts the new part where the old one stood |
| MemoryVersions.BackendExpires | internal/agent/memory_backend.go:48-106 | A backend can be used exactly while memory is enabled and both settings changed a multiple of 2^64 times since it was opened |
| MemoryVersions.ExpiredCannotWrite | internal/agent/memory_backend.go:64-106 | After at least one and less than 2^64 changes none of its calls succeeds or changes anything |
| MemoryVersions.RevisionsAreSeen | internal/agent/memory_backend.go:120-202 | What a backend holds of a note is what it last read or wrote |
| MemoryVersions.WriteReplacesSeen | internal/agent/memory_backend.go:203-221 | A write over an existing note replaces exactly the version its writer last read or wrote, and no other note |
| MemoryLaws.WriteSucceeds | internal/agent/memory_backend.go:186-221 | In every history a write succeeds exactly over nothing, or over the version its writer last read or wrote, if the backend is usable and the text small and no credential |
| MemoryLaws.NotesAreSmall | internal/agent/memory_backend.go:186-202 | In every history the UTF-8 form of every note has at most 65536 bytes |
| MemoryLaws.OthersStay | internal/agent/memory_backend.go:64-245 | A step touches a note only if it is deleted by name, or a backend of its scope writes or edits it |
| MemoryLaws.DeletedAndRefused | internal/agent/memory_backend.go:64-76 | What is deleted is gone, and what was taken for a credential changes nothing |
| MemoryLaws.LastSwitchCounts | internal/agent/memory_backend.go:48-58 | In every history memory is disabled exactly if it was switched, and last of all off |
| Memory.Service.SetMemoryEnabled | internal/agent/memory_backend.go:48-58 | The step of enabling or disabling |
| Memory.Service.DeleteMemory | internal/agent/memory_backend.go:64-76 | The step of deleting |
| Memory.MemoryBackend.Read | internal/agent/memory_backend.go:120-137 | The step of reading: the version is remembered |
| Memory.MemoryBackend.Write | internal/agent/memory_backend.go:186-221 | The step of writing |
| Memory.MemoryBackend.Edit | internal/agent/memory_backend.go:222-245 | The step of editing |
| HistoryRepair.CompleteInterruptedToolCalls | internal/agent/history_recovery.go:8-29 | The index loop computes the repaired history |
| HistoryRepair.RepairCompletes | internal/agent/history_recovery.go:12-26 | Afterwards every call is answered in the run of tool messages right behind it |
| HistoryRepair.RepairOnlyAdds | internal/agent/history_recovery.go:8-29 | The old history is still there in order; behind each message that makes calls stand its old answers and then, in the order of the calls, one note for each call that had none; nothing else is added |
| HistoryRepair.MissingIs | internal/agent/history_recovery.go:22-26 | The notes of a message are those of exactly its calls without an answer, in their order |
| HistoryRepair.RepairIsIdempotent | internal/agent/history_recovery.go:8-29 | Twice is the same as once, and a history is left alone exactly if nothing was unanswered |
| Shell.QuoteIsOneWord | internal/remote/connection.go:295-295 | A shell reads a quoted string as one word, the string itself |
| Shell.LineRoundTrip | internal/remote/connection.go:295-295 | It reads a line of quoted strings as those strings |
| Shell.NestingUnwraps | internal/remote/session.go:13-13 | Quoting n+1 times reads as the string quoted n times |
| Shell.QuoteIsInjective | internal/remote/connection.go:295-295 | Two strings that are quoted alike are the same string |
| Snippets.Parameters | internal/remote/snippets.go:11-21 | The names of all places, each once, in sorted order |
| Snippets.PlaceIs | internal/remote/snippets.go:9-9 | A place is a name in double braces: a letter or an underscore, and then letters, underscores and digits |
| Snippets.FilledFromFirst | internal/remote/snippets.go:28-32 | What stands in front of the first place stays as it is, the place becomes its quoted value, and so on behind it |
| Snippets.LessIs | internal/remote/snippets.go:11-21 | The order of names is that of the first character in which they part, a beginning coming first |
| Snippets.ExpandSnippet | internal/remote/snippets.go:22-33 | Expands exactly if every name has a value, and otherwise reports the least name that has none |
| Snippets.SnippetKeepsMeaning | internal/remote/snippets.go:28-32 | If no place is quoted, the shell reads the template as it stands, operators included, with each value as a stretch of a word |
| Snippets.WordsIffUnquoted | internal/remote/snippets.go:22-33 | For a template that is otherwise made of words and operators: every choice of values without NUL leaves it so if and only if no place is quoted |
| Snippets.PlaceInQuotes | internal/remote/snippets.go:28-32 | A place in double quotes is one where a value makes the shell do more than read words |
| Snippets.PlaceAsOption | internal/remote/snippets.go:28-32 | Operators and an equals sign in front of a place do not quote it |
| Snippets.HereDocumentIsMore | internal/remote/snippets.go:28-32 | A template with a here-document is not made of words and operators, whatever its body holds |

## Left out

- SSH, SFTP, sockets, host keys, the keyring and processes: what a dispatched request does is an answer from outside.
- SQLite, JSON, SHA-256 and CRC-32: rows are sequences and maps, decoded text is a parameter, digests are injective and CRC-32 is any function. Errors of the store are left out, except failed loads of the live view.
- Agents, models, prompts and skills: the agent may make any request. A request enters the model after its local path has been made canonical.
- Widgets, layout and the terminal emulator.
- Clocks, the 30-minute limit of a transfer, and reads that block: cancellation is a step of its own.
- Receiving.ReceiverSafe: files are written by this process only while a transfer runs, and a name with a separator of the platform other than slash and backslash is not considered.
- SessionProofs.SafeDelivery: assumes that the 32-bit checksum tells the one compared prefix from the file that is already there, and files that do not change while they are sent.
- Transfer.SendChunks: a read from a regular file returns all that was asked for and is there.
- OnTheWire.WireDelivery: on these streams the line is free of damage, and names have at most 64 KiB. Damage of payload bytes that leaves the escaping intact is the subject of `DamagedLine`; damage that makes or removes a ZDLE, or touches a header or a checksum, is not modelled on bytes.
- RoutedTransfer.DownloadHidden: a transfer that fails in the middle may read more or less than its session, and then the terminal shows what `TerminalStream.Shown` says. What follows a single transfer is read there with the same directory; `SeveralTransfers.AllHidden` treats several.
- Metadata.MetadataRoundTrip: fields are separated by ASCII white space; separators beyond ASCII are not considered.
- Routing.Router.Pump: one packet source and one display that does not fail. How much a transfer reads is a parameter of the router, which `RoutedTransfer` fills in. What is held back while it waits is stated for streams of text; that more than 32 KiB of text is displayed earlier is not stated.
- StoreObject.Store.Claim: the identifier is a parameter that was not drawn before, and the object has one caller at a time; callers side by side are treated in the ledger.
- World: the end of a run is one step, taken when no tool call of the task is under way; recording an approval is one step with the interruption; the tests of a tool call before it begins are one step, and so is reading the hosts in a renewal. What a submission adds to a task that runs goes to the agent and is not modelled.
- ServiceObject.Service.Begin: an object has one caller at a time; callers side by side are treated in the world.
- Changes: a channel has a slot and a closed flag; who waits on it is part of the live view.
- LiveView: the store is not closed, and the context of the view is not cancelled.
- Memory.MemoryBackend.Read: the lines that are cut out of the note, listing by pattern, and the normalisation of paths are not modelled; whether text looks like a credential is a parameter.
- Snippets.WordsIffUnquoted: a backslash, an expansion, a pattern, a comment or a here-document in the template itself makes it more than words.
- Policy.ScopeIsExact: a path is clean when it is absolute and has no empty, `.` or `..` component, which is what cleaning leaves unchanged.
- LocalFiles: listing directories, checksums and the private copy made before an upload.
- HistoryRepair and TaskHistory: the texts of a note and of the notice for a failed turn stand for those of the program.
