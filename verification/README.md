# DriveWire server: a verified model

A Dafny model of the drivewire-rs server and of the programs at its two ends: the unframed
command interpreter, the virtual serial channels, the sector store, the serial transport, the
echo guest, the attach terminal and the control socket. Every member below is proved.

## How it is organised

| file | contents |
|---|---|
| `proto.dfy` | bytes, opcodes, 24-bit sector numbers, the additive checksum |
| `wire.dfy` | commands, their encoding, and how a byte stream splits into commands |
| `spec.dfy` | reference semantics on values: state, effect and reply of every command, and whole sessions (`Serve`) |
| `transport.dfy` | the serial transport: re-chunking reads, short writes |
| `vdisk.dfy`, `server.dfy` | the imperative server: disk images with a cursor, opcode handlers, the dispatch loop, each proved against `spec.dfy` |
| `stream.dfy` | sessions over prefixes and concatenations of streams |
| `onwire.dfy` | the protocol on literal bytes: what each command answers and changes, and what happens wherever it is cut |
| `storage.dfy` | what the disks hold after any history of commands, mounts and unmounts |
| `channels.dfy` | which channels are open after any history |
| `vserial.dfy` | channel queues under any interleaving of sessions and hosts |
| `wakeup.dfy` | notification of attached readers under any interleaving |
| `delivery.dfy` | what becomes of every deposited byte: waiting, being written, received or lost |
| `diskrace.dfy` | disk access as interleaved steps: lookup, lock, seek, piecewise transfer, release, mounts and unmounts |
| `atomicity.dfy` | when those steps amount to whole-sector reads and writes: the condition, and the proof for every run |
| `tearing.dfy` | the condition is necessary: schedules that mix two versions of a sector from every state that violates it |
| `locks.dfy` | deadlock freedom of the server's locks, and termination |
| `echo.dfy` | the echo guest's poll loop against the server |
| `terminal.dfy` | line-ending normaliser and Ctrl-A escape of the attach client |
| `control.dfy` | control-socket requests: how a session's input becomes a list of requests |
| `reply.dfy` | control-socket replies: their text and the client's stop rule |
| `controlserver.dfy` | control sessions: the server's loops, and framing over whole sessions |
| `controllines.dfy` | control sessions as a client sees them: which lines mean what, exact reply texts, reading rows and quoted text back |

The central definition is `ServerSpec.Exec`: what one complete command does and answers. The
class `Server` does not use it: its handlers read piece by piece from a `BlockingSerial`, loop
over queues and move a cursor, and `Server.Run` is proved to leave exactly the state and output
that `Serve` gives for the flat stream, however the stream was cut into chunks. Each handler has
the same contract (`Handled`: it consumes exactly its payload, or uses up a stream that is too
short, and leaves the state and output of `Exec`), so the table below lists only the handlers with
loops or several reads; `Dispatch` and `Run` state the result for all of them, and the `Owed` lemmas
of `server.dfy` are the steps of that proof. `onwire.dfy` states the same protocol a second time, on the
bytes a guest sends and the bytes a file holds, without the command table. The other files then prove what the documentation
promises about `Serve` and `Exec`, or build small-step models where interleaving matters.

Modelling choices:

- A `Byte` is an integer below 256 and every addition on it is checked to stay there; the 16-bit
  checksum and the 32-bit sector count wrap explicitly.
- A path is resolved to a file when it is mounted. An opened image is a handle (name, file, sector
  count, read-only flag); two mounts give two handles, and if their paths resolve to one file, under
  the same spelling or through a link, those are two handles on one file. The host may at any time make
  a path stand for another file or remove it (`Relink`); handles keep the file they were opened on.
- The wall clock is an oracle that gives the six reply bytes of the n-th TIME request.
- Files keep the length they had when opened, and disk I/O below the range check does not fail.
- In `diskrace.dfy` a transfer may move any number of bytes at a time. The source issues one read or
  write for the 256 bytes, so the results that sectors can be mixed (`tearing.dfy`) are about hosts that
  may split such a transfer or interleave it with another; the atomicity results hold on every host.
- In `vserial.dfy` each step is one critical section of the source: SERREAD writes its reply
  while it holds the outbox lock, SERREADM after releasing it.

Behaviour worth knowing, each stated by a lemma:

- Channel 15 does not fit the SERREAD reply codes. With three or more bytes queued there the echo
  guest never goes idle, and with one or two it drops them
  (`IdleIffChannel15Short`, `EchoTotalIffChannel15Empty`).
- SERWRITEM deposits without notifying, so an attached reader that is asleep stays asleep.
  `StrandedBytes` says exactly which bytes can be left behind.
- Two mounts of one file have separate locks and cursors. A conflict is a sector of a file that can be
  written through one handle in use (mounted, or held by an access that has not finished) and is
  reached through another. Without conflict every run is linearizable (`EveryRunIsAtomic`); from every
  state with one, some schedule mixes two versions of a sector (`ConflictTears`); from idle states
  the two are equivalent (`LinearizableIffNoConflict`). `MountConflictIff` says before a mount whether
  it brings a conflict about. Remounting after an unmount and several read-only mounts do not.
- The comment on STATUS replies promises one terminal line; a drive name with a terminal-looking
  line after its first ends the client's read early (`ReplyReadWhole`, `NameCutsListing`). Such a name
  cannot be mounted through the control socket (`ControlSessionsSafe`), but `dw serve --disk0` can be
  given one (crates/drivewire-cli/src/main.rs:193-207).
- The outbound task of an attached client outlives it, and can take the wakeup meant for the next
  client and lose what it drains (`LeftoverTaskLoses`). `EveryByteAccounted` says exactly what is lost.
- A line feed in a path given to `dw mount` ends the MOUNT line, and what follows it is run as further
  requests (`MountReceived`).
- The server's module comment says virtual serial is not yet routed to host endpoints; the code
  does route it, and the model follows the code.

## Model

| member | source | states |
|---|---|---|
| Proto.DecodeIsBijective | crates/drivewire-proto/src/opcode.rs:52-98 | decoding loses nothing: every byte re-encodes to itself, every opcode and fast-write channel decodes from its own byte |
| Proto.LsnRoundTrip | crates/drivewire-proto/src/lsn.rs:10-17 | the three-byte sector field is a bijection on 24-bit numbers, and a 32-bit number survives it if and only if it is below 2^24 |
| Proto.LsnCounts | crates/drivewire-proto/src/lsn.rs:10-17 | raising the last byte addresses the next sector, with carries from the last byte to the middle and the first |
| Proto.WordCounts | crates/drivewire-server/src/lib.rs:236-250 | the two-byte sums on the wire count the same way |
| Proto.FieldsStartAtZero | crates/drivewire-proto/src/lsn.rs:10-12 | all-zero fields mean 0 |
| Proto.ChecksumIsSum | crates/drivewire-proto/src/checksum.rs:4-6 | the wrapping fold equals the byte sum modulo 65536, for every length |
| Proto.SectorChecksumExact | crates/drivewire-proto/src/checksum.rs:4-6 | on a 256-byte sector the checksum never wraps: it is the exact sum, at most 65280 |
| Proto.OneSidedCorruptionDetected | crates/drivewire-proto/src/checksum.rs:4-6 | damage that only raises or only lowers bytes always changes a sector's checksum |
| Proto.SingleByteIsOneSided | crates/drivewire-proto/src/checksum.rs:4-6 | any change of one byte is damage of that kind |
| Wire.ParseInvertsEncode | crates/drivewire-server/src/lib.rs:102-203 | parsing a command's own encoding, whatever follows, gives the command and consumes exactly its bytes |
| Wire.ParseSound | crates/drivewire-server/src/lib.rs:102-203 | whatever is parsed is well formed and the bytes used are exactly its encoding, including count- and code-dependent payloads |
| Wire.SplitSound | crates/drivewire-server/src/lib.rs:98-205 | every byte stream is the encoding of well-formed commands followed by a tail that holds no complete command |
| Wire.SplitUnique | crates/drivewire-server/src/lib.rs:98-205 | that decomposition is unique |
| Wire.SplitAppend | crates/drivewire-server/src/lib.rs:98-205 | splitting a concatenation continues the first part's unfinished tail and never revisits its complete commands |
| ServerSpec.LowestReady | crates/drivewire-server/src/lib.rs:626-630 | the scan yields the lowest-numbered non-empty queue, or none if all are empty |
| ServerSpec.SectorCount | crates/drivewire-vdisk/src/lib.rs:59-60 | even truncated to 32 bits the recorded count never reaches past the file, and it misses no whole sector of a file below 2^40 bytes |
| ServerSpec.Apply | crates/drivewire-server/src/lib.rs:89-95 | every event keeps the state well formed: sixteen queues and flags, every mounted sector inside its file |
| Transport.BlockingSerial.PollRead | crates/drivewire-transport/src/blocking_serial.rs:186-210 | a poll loses and reorders nothing, never exceeds the request, is empty only when nothing was asked for, and fails exactly at end of stream |
| Transport.BlockingSerial.ReadExact | crates/drivewire-transport/src/blocking_serial.rs:186-210 | reading n bytes through any chunking yields exactly the next n bytes of the flat stream, or fails having used up a shorter one |
| Transport.BlockingSerial.WriteAll | crates/drivewire-transport/src/blocking_serial.rs:214-226 | written bytes are appended, in order, to what the writer thread receives |
| Transport.WriterLoop | crates/drivewire-transport/src/blocking_serial.rs:114-129 | under any sequence of short and failed writes, what reaches the device of each chunk is what `Send` gives for the results that chunk consumed |
| Transport.ChunkWholeIff | crates/drivewire-transport/src/blocking_serial.rs:116-126 | a chunk is cut short exactly when a write of its own fails, and by at most one such write |
| Transport.LossesAreFailures | crates/drivewire-transport/src/blocking_serial.rs:114-129 | over a whole run exactly as many chunks are incomplete as writes have failed |
| VDisk.DskFile.Open | crates/drivewire-vdisk/src/lib.rs:52-67 | opening records a sector count whose every sector lies inside the file |
| VDisk.DskFile.Read | crates/drivewire-vdisk/src/lib.rs:76-86 | through the cursor, exactly the addressed sector, or the range error |
| VDisk.DskFile.Write | crates/drivewire-vdisk/src/lib.rs:88-101 | exactly the addressed sector is replaced, or nothing changes and the right error is returned |
| ServerLoop.Server.MountDsk | crates/drivewire-server/src/lib.rs:430-441 | the slot holds a fresh handle on the file the path resolves to, or nothing changes if it resolves to none |
| ServerLoop.Server.SendToVserial | crates/drivewire-server/src/lib.rs:375-383 | bytes are appended to the named outbox only; an invalid channel changes nothing |
| ServerLoop.Server.DrainVserial | crates/drivewire-server/src/lib.rs:364-371 | returns and empties the named inbox |
| ServerLoop.Server.HandleRead | crates/drivewire-server/src/lib.rs:207-253 | READ and READEX do what the reference says, including the sector already sent when READEX is cut short before its checksum |
| ServerLoop.Server.HandleWrite | crates/drivewire-server/src/lib.rs:255-291 | WRITE does what the reference says, and a truncated one changes nothing |
| ServerLoop.Server.HandleSerRead | crates/drivewire-server/src/lib.rs:622-645 | the scan answers for the lowest waiting channel: one byte inline, or an announcement, or idle; codes never overflow a byte |
| ServerLoop.Server.PopFront | crates/drivewire-server/src/lib.rs:735-741 | byte-by-byte popping yields the front of the queue, zero-padded to the requested count |
| ServerLoop.Server.HandleSerReadM | crates/drivewire-server/src/lib.rs:727-744 | answers exactly the requested number of bytes |
| ServerLoop.Server.HandleSerWriteM | crates/drivewire-server/src/lib.rs:649-667 | consumes header and counted payload and deposits it whole, or changes nothing if cut short |
| ServerLoop.Server.HandleSerSetStat | crates/drivewire-server/src/lib.rs:672-699 | consumes the 26-byte block exactly for the status code that has one; opens or closes the channel |
| ServerLoop.Server.Dispatch | crates/drivewire-server/src/lib.rs:114-203 | every opcode byte, known, unimplemented or junk, is handled with exactly its payload consumed |
| ServerLoop.Server.Run | crates/drivewire-server/src/lib.rs:98-205 | over any chunking the session's final state, output and way of ending are those of the reference semantics on the flat stream; it ends only when the stream does, with Eof exactly between commands |
| Stream.ServeRunsCommands | crates/drivewire-server/src/lib.rs:7-9 | a session fed the encodings of a list of commands executes exactly that list |
| Stream.PrefixMonotone | crates/drivewire-server/src/lib.rs:102-110 | after any prefix of a stream the state is that of its complete commands alone, and both commands and output are prefixes of the longer run's |
| Stream.ServeConcat | crates/drivewire-server/src/lib.rs:98-205 | a session is a fold over its input: later bytes only continue the unfinished tail |
| Stream.ServeSequence | crates/drivewire-server/src/lib.rs:98-205 | sessions that stop between commands join end to end |
| OnWire.OtherBytesSkipped | crates/drivewire-server/src/lib.rs:114-203 | every byte that is not one of the twenty commands or sixteen fast writes is skipped alone, opcode or noise |
| OnWire.ReadOnWire | crates/drivewire-server/src/lib.rs:207-253 | 52 or 72, slot, b0 b1 b2: the 256 bytes of the mounted file from offset (b0*65536 + b1*256 + b2)*256, zeros if there is no such sector, then their byte sum high byte first; cut anywhere, no answer |
| OnWire.ReadExOnWire | crates/drivewire-server/src/lib.rs:207-253 | D2 or F2: the same sector as soon as the address is in, then 00 exactly if the guest's two bytes are its byte sum, else F3 |
| OnWire.WriteOnWire | crates/drivewire-server/src/lib.rs:255-291 | 57 or 77 and 262 more bytes: F3 iff the sum is wrong, else F6 iff nothing is mounted, else F5 iff read-only or no such sector, else 00 and exactly those 256 bytes of the file are replaced; cut anywhere, nothing changes |
| OnWire.TimeAndFlushOnWire | crates/drivewire-server/src/lib.rs:324-332 | 23 answers the clock's six bytes, 46 empties the print buffer |
| OnWire.PrintAndInitOnWire | crates/drivewire-server/src/lib.rs:293-322 | 50 keeps its byte, 5A takes one byte and answers 04 |
| OnWire.StatOnWire | crates/drivewire-server/src/lib.rs:304-312 | 47, 53 and 44 take two bytes and do nothing |
| OnWire.InitTermOnWire | crates/drivewire-server/src/lib.rs:160-171 | 45 opens and C5 closes the named channel of sixteen |
| OnWire.SetStatOnWire | crates/drivewire-server/src/lib.rs:672-699 | C4: code 29 opens, 2A closes, 28 brings exactly 26 more bytes, others nothing |
| OnWire.SerWriteOnWire | crates/drivewire-server/src/lib.rs:334-359 | C3 and 80 to 8F append one byte to the named inbox |
| OnWire.SerWriteMOnWire | crates/drivewire-server/src/lib.rs:649-667 | 64, channel, count: that many bytes are appended together |
| OnWire.SerReadMOnWire | crates/drivewire-server/src/lib.rs:727-744 | 63, channel, count: the front of the outbox, then zeros, exactly count bytes |
| OnWire.SerReadOnWire | crates/drivewire-server/src/lib.rs:622-645 | 43: the lowest waiting channel's next byte under code 1 + channel, or an announcement under 17 + channel of at most 255, or two zeros |
| Channels.OpenIsLastWord | crates/drivewire-server/src/lib.rs:701-708 | after every history each channel is as the last SERINIT, SERTERM or SERSETSTAT with code 0x29 or 0x2A that named it left it, else as it was |
| Storage.WriteAcknowledged | crates/drivewire-server/src/lib.rs:272-290 | the answer to a WRITE, one if-and-only-if for each of 0x00, 0xF3, 0xF6 and 0xF5; unless it is 0x00 nothing changes, and if so the sector reads back and no other file changes |
| Storage.FilesAreLastAcknowledged | crates/drivewire-server/src/lib.rs:255-291 | after every history of commands, mounts, unmounts and changes of what paths stand for, every byte of every file is the last acknowledged write covering it, through whatever slot and under whatever name, else its initial value |
| Storage.TrailingBytesUntouched | crates/drivewire-vdisk/src/lib.rs:88-101 | bytes after the last whole sector survive every history |
| Storage.ReadReturnsLastAcknowledged | crates/drivewire-server/src/lib.rs:207-253 | READ of an in-range sector answers with the last acknowledged bytes of the file mounted there and their checksum, whichever slot or name they were written through |
| Storage.ReplayCommands | crates/drivewire-server/src/lib.rs:98-205 | commands executed in a row are such a history |
| Storage.SessionFiles | crates/drivewire-server/src/lib.rs:98-205 | after a session on any byte stream every byte of every file is the last write acknowledged among the stream's complete commands, else what it was |
| Storage.RelinkKeepsMounts | crates/drivewire-vdisk/src/lib.rs:52-67 | when the host makes a path stand for another file, what is mounted stays on its file and a later mount of the path gets the new one |
| Storage.DamagedWriteRefused | crates/drivewire-server/src/lib.rs:267-276 | a sector damaged one-sidedly on the way in gets 0xF3 and leaves every disk alone |
| Storage.DamagedReadReported | crates/drivewire-server/src/lib.rs:231-246 | READEX clears exactly the sectors whose byte sum matches and reports 0xF3 for every one-sided damage |
| Vserial.StepConserves | crates/drivewire-server/src/lib.rs:347-383 | every critical section keeps the conservation laws |
| Vserial.EveryRunConserves | crates/drivewire-server/src/lib.rs:622-667 | after any interleaving: per channel, sent equals popped then queued, deposited equals drained then waiting; per session, popped equals delivered then held |
| Vserial.FreshConserved | crates/drivewire-server/src/lib.rs:67-81 | the laws hold at the start of every run |
| Vserial.LongQueueOnlyGrows | crates/drivewire-server/src/lib.rs:631-640 | once three bytes wait on a channel only SERREADM for that channel can take any |
| Vserial.AnnouncedBytesArrive | crates/drivewire-server/src/lib.rs:637-640 | after an announcement and any interleaving without SERREADM on that channel, SERREADM returns exactly the announced front bytes and no padding |
| Wakeup.StepKeepsAwake | crates/drivewire-server/src/lib.rs:347-359 | no action loses a wakeup: a notified byte in the inbox means a pending notification, a stored permit or a reader about to drain |
| Wakeup.RunKeepsAwake | crates/drivewire-server/src/lib.rs:596-608 | so in every run, with any number of attached readers |
| Wakeup.StrandedBytes | crates/drivewire-server/src/lib.rs:596-608 | in every reachable quiescent state with a reader attached the inbox is exactly the bulk deposits since the last drain |
| Wakeup.QuiescentIffNoStep | crates/drivewire-server/src/lib.rs:396-404 | quiescence is exactly the absence of any step the server can take by itself |
| Wakeup.NotifiedBytesDrain | crates/drivewire-server/src/lib.rs:596-608 | once traffic stops every schedule is finite and ends with no notified byte left behind while a reader is attached |
| Wakeup.BulkDepositStrands | crates/drivewire-server/src/lib.rs:660-662 | a SERWRITEM deposit on a sleeping channel leaves its bytes waiting with no step enabled |
| Wakeup.StrandingHappens | crates/drivewire-server/src/lib.rs:660-662 | such a state is reachable |
| Delivery.EveryByteAccounted | crates/drivewire-server/src/lib.rs:596-608 | after every run with any number of attach tasks, what was deposited is what was drained, in order, then what waits; each batch is being written, sent whole, or cut short by a failed write that ended its task; exactly as many batches lost bytes as writes failed |
| Delivery.AllReceived | crates/drivewire-server/src/lib.rs:596-608 | if no write failed and none is under way, the clients have received exactly the deposits, in order, up to what waits |
| Delivery.LeftoverTaskLoses | crates/drivewire-server/src/lib.rs:610-613 | whenever two tasks are asleep, the next byte can wake one whose client is gone, be lost with all that waited, and leave the other asleep |
| Delivery.TwoAsleep | crates/drivewire-server/src/lib.rs:610-613 | two such tasks are reachable |
| DiskRace.StepDisciplined | crates/drivewire-vdisk/src/lib.rs:81-86 | only the lock holder is past its seek, and the cursor stays where the holder's own seek and transfers put it |
| DiskRace.AccessNotRedirected | crates/drivewire-server/src/lib.rs:216-218 | from its lookup until it releases, through its own steps and every interleaving of others, mounts and unmounts, an access stays on the image mounted at the lookup, holds its lock once taken and keeps its cursor |
| DiskAtomic.ConflictOnlyByMount | crates/drivewire-server/src/lib.rs:89-95 | no lookup, lock, seek, transfer, release or unmount ever brings a conflict about |
| DiskAtomic.MountConflictIff | crates/drivewire-server/src/lib.rs:430-441 | a mount brings a conflict about if and only if a handle in use, other than the one it replaces, reaches a sector of the file the path resolves to, for writing if the mount is read-only |
| DiskAtomic.StepRefines | crates/drivewire-vdisk/src/lib.rs:76-101 | without conflict each step is one whole-sector operation or none, and keeps the invariant |
| DiskAtomic.EveryRunIsAtomic | crates/drivewire-vdisk/src/lib.rs:76-101 | every run whose states have no conflict, remounts and read-only aliases included, is a sequence of whole-sector reads and writes in the order of the accesses' own steps |
| DiskAtomic.MountFreeIsConflictFree | crates/drivewire-server/src/lib.rs:89-95 | between mounts the condition need only be looked at once |
| DiskAtomic.ViewAtRest | crates/drivewire-vdisk/src/lib.rs:43-49 | when no session is transferring, the abstract store is the sectors of the files themselves |
| DiskAtomic.TailsUntouched | crates/drivewire-vdisk/src/lib.rs:88-101 | every run keeps the length of every file and the bytes after its last whole sector, conflict or not |
| DiskTearing.RacingMixes | crates/drivewire-vdisk/src/lib.rs:76-101 | two accesses transferring one sector through different handles, one of them writing, can complete with any split k not yet passed: a read gets old bytes before k and new ones after, two writes leave one's bytes before k and the other's after |
| DiskTearing.ConflictTears | crates/drivewire-server/src/lib.rs:430-441 | from every state with a conflict, whatever else is under way, a run without mounts leads to such a race |
| DiskTearing.LinearizableIffNoConflict | crates/drivewire-vdisk/src/lib.rs:76-101 | from an idle state every completed run without mounts is explained by some order of its reads and writes if and only if there is no conflict |
| DiskTearing.IdleConflictIff | crates/drivewire-server/src/lib.rs:430-441 | in an idle state there is a conflict exactly when two slots hold separate handles on one file with a sector and one is writable |
| DiskTearing.FreshInv | crates/drivewire-server/src/lib.rs:67-81 | a server with nothing mounted satisfies the invariant |
| DiskTearing.TwoMounts | crates/drivewire-server/src/lib.rs:430-441 | mounting two paths, spelled alike or not, gives a conflict exactly when they resolve to one file, it has a sector and one mount is writable |
| DiskTearing.Remount | crates/drivewire-server/src/lib.rs:430-441 | mounting after an unmount gives none, whatever the paths resolve to |
| Locks.ProgramsOrdered | crates/drivewire-server/src/lib.rs:418-425 | every operation waits only for locks above those it holds |
| Locks.NeverDeadlocked | crates/drivewire-server/src/lib.rs:418-425 | with first-come queues and the drive table's reader-writer lock (readers share, but not past a waiting writer), in every reachable state of any number of operations exclusion holds and, if one is unfinished, some operation can move |
| Locks.EveryoneFinishes | crates/drivewire-server/src/lib.rs:418-425 | once no operation arrives, every schedule takes exactly the steps of the work left, and one that cannot go on has finished every operation and released every lock |
| Locks.HeldAlone | crates/drivewire-server/src/lib.rs:89-95 | in every reachable state two operations hold one lock only if it is the drive table and neither is a mount or unmount |
| Locks.ProgramsGuard | crates/drivewire-server/src/lib.rs:347-425 | each operation takes the lock of whatever it works on, in the right mode |
| EchoGuest.PollDecodes | crates/drivewire-cli/examples/echo-guest.rs:45-81 | what each of the guest's five readings of a reply says about the server's queues; for channels 0 to 14 it is exact |
| EchoGuest.EchoBack | crates/drivewire-cli/examples/echo-guest.rs:85-94 | the frame built by the loop interleaves the opcode with each byte |
| EchoGuest.EchoServed | crates/drivewire-server/src/lib.rs:334-359 | serving that frame deposits exactly the bytes, in order, on the same channel |
| EchoGuest.TurnEffect | crates/drivewire-cli/examples/echo-guest.rs:39-82 | a turn moves the lowest waiting channel's next byte or burst from outbox to inbox; channel 15 loses a byte or is stuck |
| EchoGuest.Exchange | crates/drivewire-server/src/lib.rs:98-205 | one request through the real dispatch loop gives the reference reply and state |
| EchoGuest.GuestPass | crates/drivewire-cli/examples/echo-guest.rs:39-82 | one pass of the loop body over the wire is one turn |
| EchoGuest.PollsStep | crates/drivewire-cli/examples/echo-guest.rs:39-82 | each non-idle poll lowers the poll count n/255 + (n%255 if below 3, else 1) by one |
| EchoGuest.EchoUntilIdle | crates/drivewire-cli/examples/echo-guest.rs:39-94 | the loop reaches idle with every outbox empty, every byte of channels 0 to 14 echoed in order to its inbox, and exactly the expected number of polls per channel |
| EchoGuest.IdleIffChannel15Short | crates/drivewire-cli/examples/echo-guest.rs:56-80 | the loop ever goes idle if and only if channel 15 holds fewer than three bytes |
| EchoGuest.EchoTotalIffChannel15Empty | crates/drivewire-cli/examples/echo-guest.rs:56-80 | all sixteen channels are echoed if and only if channel 15 was empty |
| Terminal.NormalizeLineEndings | crates/drivewire-cli/src/main.rs:446-470 | the loop computes the one-bit filter |
| Terminal.NormalizeIsTokens | crates/drivewire-cli/src/main.rs:442-445 | the filter computes the whole-stream meaning, a carried CR counting as the stream's first byte |
| Terminal.TranslateStream | crates/drivewire-cli/src/main.rs:305-321 | over any chunking the terminal sees the whole-stream translation |
| Terminal.NormalizeWellBehaved | crates/drivewire-cli/src/main.rs:446-470 | breaks come out only as CR LF, other bytes survive in order, and the length bound holds |
| Terminal.NormalizeIdempotent | crates/drivewire-cli/src/main.rs:446-470 | the filter is the identity on its own output |
| Terminal.LineEndings | crates/drivewire-cli/src/main.rs:446-470 | on the bytes: text passes, LF, CR LF and a CR followed by something else are each shown as 0D 0A, a CR at the end is held back |
| Terminal.ProcessInputByte | crates/drivewire-cli/src/main.rs:417-440 | one key: what it emits, whether it arms, whether it exits |
| Terminal.ProcessChunk | crates/drivewire-cli/src/main.rs:285-292 | one read: processing stops at the exit key |
| Terminal.ForwardTyping | crates/drivewire-cli/src/main.rs:279-299 | what is forwarded does not depend on how the typing was cut into reads |
| Terminal.EscapedArrives | crates/drivewire-cli/src/main.rs:413-416 | doubling every Ctrl-A gets any byte string through exactly, without exit |
| Terminal.ArmedIffOddRun | crates/drivewire-cli/src/main.rs:417-440 | without an exit the machine is armed exactly after an odd run of Ctrl-A |
| Terminal.ExitExactly | crates/drivewire-cli/src/main.rs:417-440 | it exits exactly at the first q or Q after an odd run of Ctrl-A, having sent what came before the pair |
| Terminal.RunThenKey | crates/drivewire-cli/src/main.rs:413-440 | on the bytes: n times 01 before another key sends half as many, rounded up, and the key; after an odd run 71 or 51 exits instead; at the end half, rounded down, with an odd one held |
| Terminal.OthersSurvive | crates/drivewire-cli/src/main.rs:415-416 | unless the session ends, every byte typed other than Ctrl-A is sent, in order |
| Control.MountReceived | crates/drivewire-server/src/lib.rs:474-508 | what a printed MOUNT becomes, for every slot and every path: a usage error or a mount of what survives line splitting and trimming, followed by the requests made of the lines after a line feed in the path |
| Control.MountRoundTrip | crates/drivewire-cli/src/main.rs:577-583 | the whole session it starts is the one mount of its own slot and path if and only if the path is non-empty, holds no line feed and does not end in white space |
| Control.UnmountRoundTrip | crates/drivewire-cli/src/main.rs:591-592 | the session a printed UNMOUNT starts is that one request |
| Control.StatusRoundTrip | crates/drivewire-cli/src/main.rs:601-602 | so is that of a printed STATUS |
| Control.SlotParses | crates/drivewire-server/src/lib.rs:495-505 | every printed u8 slot parses back |
| ControlLines.SlotIff | crates/drivewire-server/src/lib.rs:495-505 | a slot argument is accepted as n if and only if it is an optional plus sign, any leading zeros and the decimal notation of n, below 256 |
| ControlLines.DigitsMean | crates/drivewire-server/src/lib.rs:500-522 | numbers in replies are in decimal notation, most significant digit first |
| ControlLines.MountLineMeans | crates/drivewire-server/src/lib.rs:491-508 | lines spelling MOUNT in any case: usage errors, a refused slot, or a mount of everything after the second white space |
| ControlLines.UnmountLineMeans | crates/drivewire-server/src/lib.rs:509-518 | lines spelling UNMOUNT in any case |
| ControlLines.OtherLinesMean | crates/drivewire-server/src/lib.rs:519-537 | STATUS and QUIT in any case whatever follows, and every other word is unknown |
| ControlLines.RequestsConcat | crates/drivewire-server/src/lib.rs:474-487 | sessions go line by line: what follows complete lines is handled after them, or not at all after a QUIT |
| ControlLines.PaddedLine | crates/drivewire-server/src/lib.rs:476-478 | white space around a line does not matter, nor a missing line feed at the end of input |
| ControlLines.BlankLineSkipped | crates/drivewire-server/src/lib.rs:478-480 | a blank line is no request |
| ControlReply.ControlRequest | crates/drivewire-cli/src/main.rs:610-636 | the client loop reads up to the first terminal line |
| ControlLines.TerminalLines | crates/drivewire-cli/src/main.rs:625-632 | the client stops after ERROR or BYE, after OK alone and after OK and a blank before text, and after OK and another character it does not |
| ControlReply.ReplyReadWhole | crates/drivewire-cli/src/main.rs:607-636 | the client never reads past a reply, and reads it whole if and only if its free text is one line and, in a listing, no line of a drive name after its first is terminal; cut short or not, it sees ERROR exactly when the request failed |
| ControlReply.NameCutsListing | crates/drivewire-cli/src/main.rs:193-207 | a drive named `a`, line feed, `OK` does cut a STATUS reply short |
| ControlSession.DriveSummary | crates/drivewire-server/src/lib.rs:407-415 | the loop yields the reference listing of the mounted drives |
| ControlSession.DriveRowsExact | crates/drivewire-server/src/lib.rs:407-415 | that listing has one row for each mounted drive, with its sector count and name, in strictly ascending order of slot |
| ControlSession.ChannelSummary | crates/drivewire-server/src/lib.rs:418-426 | the loop yields the reference listing of the channels that STATUS shows |
| ControlSession.ChannelRowsExact | crates/drivewire-server/src/lib.rs:524-531 | that listing has one row, true to the state, for each channel that is open or holds bytes and for no other, in strictly ascending order |
| ControlSession.HandleControlCommand | crates/drivewire-server/src/lib.rs:490-537 | every line, well formed or not, has the effect and the reply text that the reference gives for its request |
| ControlSession.HandleControl | crates/drivewire-server/src/lib.rs:470-488 | a session runs every line, skips blank ones and stops after BYE: its final state and whole output are those of the reference on its list of requests |
| ControlSession.RequestsOneLine | crates/drivewire-server/src/lib.rs:475-480 | whatever a client sends, the paths and verbs its requests carry into replies hold no line feed |
| ControlSession.RespondFramed | crates/drivewire-server/src/lib.rs:490-537 | for each of the eight kinds of request, the reply can be read whole exactly if a failing mount gets a one-line error text and, for STATUS, no drive name has a terminal line after its first |
| ControlSession.SessionReadWhole | crates/drivewire-cli/src/main.rs:607-636 | for every input to a session, a client applying the stop rule gets one whole reply per request, in order, if and only if each request finds that condition met |
| ControlSession.ControlSessionsSafe | crates/drivewire-server/src/lib.rs:470-488 | with one-line error texts, from one-line drive names, every session is read whole and leaves one-line drive names |
| ControlSession.MountEndToEnd | crates/drivewire-server/src/lib.rs:494-508 | from the printed command through the session to the mount table and back to the client's reply |
| ControlLines.MountLine | crates/drivewire-server/src/lib.rs:494-508 | what a session of one MOUNT line leaves behind and the exact text it sends back, success or failure |
| ControlLines.UnmountLine | crates/drivewire-server/src/lib.rs:509-514 | the same for UNMOUNT |
| ControlLines.QuietLines | crates/drivewire-server/src/lib.rs:505-537 | the exact texts for QUIT, STATUS, usage errors, refused slots and unknown verbs, with the state unchanged |
| ControlLines.RowReadsBack | crates/drivewire-server/src/lib.rs:521-530 | a STATUS row reads back to the slot, sectors and name, or to the channel, state, inbox and outbox counts it was made from |
| ControlLines.QuotedReadsBack | crates/drivewire-server/src/lib.rs:505 | the quoted slot text in a refusal reads back to what the client sent |

## Left out

- termios, device opening, baud mapping, thread spawning and `drain_serial`: operating-system calls and timing.
- Socket listeners and accept loops: sessions appear directly as interleaved steps.
- The contents of the TIME reply: only its length matters on the wire.
- Printer flush text, tracing and logging; the argument structs and raw terminal mode of the command line.
- `probe`: a one-byte diagnostic with no state.
- The hash-map order in which STATUS collects drives before sorting them: the model scans slots in ascending order.
- Which non-ASCII characters are printed as themselves in quoted text: an oracle, as the host's error texts are; paths and control input are valid text.
- Host I/O errors and files truncated behind the server's back: the source turns them into zero sectors or the write error, and leaves contents unspecified.
- A failing transport write in the middle of a session: the model's transport accepts all output.
- EchoGuest.EchoUntilIdle: assumes fewer than three bytes on channel 15, because `EchoGuest.IdleIffChannel15Short` shows the loop does not terminate otherwise.
- Locks.NeverDeadlocked: assumes that transport writes made under the outbox lock complete, as does Locks.EveryoneFinishes.
