/** Reference semantics of the DriveWire server: what each command does to the server's
    state and what it sends back, on values. */
module ServerSpec {
  import opened Proto
  import opened Wire

  const CHANNELS: nat := 16
  const DWINIT_RESPONSE: Byte := 0x04

  type Path = string

  /** What a path resolves to. Several paths may resolve to one file. */
  type FileId = nat

  type TimeReply = s: seq<Byte> | |s| == 6 witness [0, 0, 0, 0, 0, 0]

  /** Oracle for the wall clock: the reply to the n-th TIME request. */
  type Clock = nat -> TimeReply

  /** An opened disk image: the name it was opened by and the file that name then stood for.
      Two handles may be on the same file, under the same name or different ones. */
  datatype Handle = Handle(name: Path, file: FileId, sectorCount: U32, readOnly: bool)

  datatype State = State(
    files: map<FileId, seq<Byte>>,
    names: map<Path, FileId>,
    drives: map<Byte, Handle>,
    printBuffer: seq<Byte>,
    inbox: seq<seq<Byte>>,   // guest to host, per channel
    outbox: seq<seq<Byte>>,  // host to guest, per channel
    open: seq<bool>,
    ticks: nat)

  predicate Fits(files: map<FileId, seq<Byte>>, h: Handle) {
    h.file in files && h.sectorCount * SECTOR_SIZE <= |files[h.file]|
  }

  predicate Resolves(files: map<FileId, seq<Byte>>, names: map<Path, FileId>) {
    forall p :: p in names ==> names[p] in files
  }

  /** The names after the host has made `path` stand for `target`, or removed it. */
  function Relinked(files: map<FileId, seq<Byte>>, names: map<Path, FileId>, path: Path, target: Option<FileId>)
    : (r: map<Path, FileId>)
    requires Resolves(files, names)
    ensures Resolves(files, r)
  {
    if target.Some? && target.value in files then names[path := target.value] else names - {path}
  }

  /** Opening a file by a name that resolves. */
  function Opened(files: map<FileId, seq<Byte>>, names: map<Path, FileId>, path: Path, readOnly: bool): (h: Handle)
    requires Resolves(files, names) && path in names
    ensures Fits(files, h) && h.name == path && h.file == names[path]
  {
    Handle(path, names[path], SectorCount(|files[names[path]]|), readOnly)
  }

  predicate Valid(st: State) {
    && |st.inbox| == CHANNELS && |st.outbox| == CHANNELS && |st.open| == CHANNELS
    && Resolves(st.files, st.names)
    && forall slot :: slot in st.drives ==> Fits(st.files, st.drives[slot])
  }

  // ---------------------------------------------------------------- disks

  function ZeroSector(): Sector { seq(SECTOR_SIZE, _ => 0) }

  function SectorAt(content: seq<Byte>, lsn: nat): Sector
    requires lsn * SECTOR_SIZE + SECTOR_SIZE <= |content|
  {
    content[lsn * SECTOR_SIZE..lsn * SECTOR_SIZE + SECTOR_SIZE]
  }

  function Patch(content: seq<Byte>, lsn: nat, sector: Sector): (r: seq<Byte>)
    requires lsn * SECTOR_SIZE + SECTOR_SIZE <= |content|
    ensures |r| == |content|
  {
    content[..lsn * SECTOR_SIZE] + sector + content[lsn * SECTOR_SIZE + SECTOR_SIZE..]
  }

  /** The sector count stored when an image is opened, truncated to 32 bits. */
  function SectorCount(length: nat): (n: U32)
    ensures n * SECTOR_SIZE <= length
    ensures length < 0x100_0000_0000 ==> length < (n + 1) * SECTOR_SIZE
  {
    (length / SECTOR_SIZE) % 0x1_0000_0000
  }

  /** The sector a READ puts on the wire: zeros for an empty slot or a sector out of range. */
  function ReadSector(st: State, slot: Byte, lsn: Lsn): Sector
    requires Valid(st)
  {
    if slot in st.drives && lsn < st.drives[slot].sectorCount
    then SectorAt(st.files[st.drives[slot].file], lsn)
    else ZeroSector()
  }

  function WriteSector(st: State, slot: Byte, lsn: Lsn, sector: Sector, guestSum: U16): (r: Effect)
    requires Valid(st)
    ensures Valid(r.st) && r.st.drives == st.drives
  {
    if guestSum != Checksum16(sector) then Effect(st, [E_CRC])
    else if slot !in st.drives then Effect(st, [E_NOT_READY])
    else
      var h := st.drives[slot];
      if h.readOnly || lsn >= h.sectorCount then Effect(st, [E_WRITE])
      else Effect(st.(files := st.files[h.file := Patch(st.files[h.file], lsn, sector)]), [OK])
  }

  // ------------------------------------------------------- virtual serial

  /** Index of the first non-empty queue, or the number of queues when all are empty. */
  function LowestReady(queues: seq<seq<Byte>>): (i: nat)
    ensures i <= |queues|
    ensures i < |queues| ==> queues[i] != []
    ensures forall j :: 0 <= j < i ==> queues[j] == []
  {
    if queues == [] || queues[0] != [] then 0 else 1 + LowestReady(queues[1..])
  }

  function Min(a: nat, b: nat): nat { if a < b then a else b }

  /** SERREAD: one byte inline when one or two wait, else an announcement of how many. */
  function Poll(st: State): Effect
    requires Valid(st)
  {
    var i := LowestReady(st.outbox);
    if i == CHANNELS then Effect(st, [0x00, 0x00])
    else
      var q := st.outbox[i];
      if |q| < 3 then Effect(st.(outbox := st.outbox[i := q[1..]]), [0x01 + i, q[0]])
      else Effect(st, [0x11 + i, Min(|q|, 255)])
  }

  function Zeros(n: nat): seq<Byte> { seq(n, _ => 0) }

  /** SERREADM: exactly `count` bytes, zero-padded when fewer are queued. */
  function Fetch(st: State, channel: Byte, count: Byte): Effect
    requires Valid(st)
  {
    if channel >= CHANNELS then Effect(st, Zeros(count))
    else
      var q := st.outbox[channel];
      var n := Min(count, |q|);
      Effect(st.(outbox := st.outbox[channel := q[n..]]), q[..n] + Zeros(count - n))
  }

  function Deposit(st: State, channel: Byte, bytes: seq<Byte>): State
    requires Valid(st)
  {
    if channel >= CHANNELS then st
    else st.(inbox := st.inbox[channel := st.inbox[channel] + bytes])
  }

  function SetOpen(st: State, channel: Byte, open: bool): State
    requires Valid(st)
  {
    if channel >= CHANNELS then st else st.(open := st.open[channel := open])
  }

  // ------------------------------------------------------------- commands

  datatype Effect = Effect(st: State, out: seq<Byte>)

  function Exec(st: State, c: Command, clock: Clock): (r: Effect)
    requires Valid(st)
    ensures Valid(r.st) && r.st.drives == st.drives
  {
    match c
    case Plain(op) => ExecPlain(st, op, clock)
    case DwInit(_) => Effect(st, [DWINIT_RESPONSE])
    case Stat(_, _, _) => Effect(st, [])
    case Print(b) => Effect(st.(printBuffer := st.printBuffer + [b]), [])
    case Read(_, slot, lsn) =>
      var sector := ReadSector(st, slot, lsn);
      Effect(st, sector + ToBe16(Checksum16(sector)))
    case ReadEx(_, slot, lsn, guestSum) =>
      var sector := ReadSector(st, slot, lsn);
      Effect(st, sector + [if guestSum == Checksum16(sector) then OK else E_CRC])
    case Write(_, slot, lsn, sector, guestSum) => WriteSector(st, slot, lsn, sector, guestSum)
    case SerReadM(channel, count) => Fetch(st, channel, count)
    case SerInit(channel) => Effect(SetOpen(st, channel, true), [])
    case SerTerm(channel) => Effect(SetOpen(st, channel, false), [])
    case SerWrite(channel, b) => Effect(Deposit(st, channel, [b]), [])
    case SerWriteM(channel, bytes) => Effect(Deposit(st, channel, bytes), [])
    case SerSetStat(channel, code, _) =>
      if code == SS_OPEN then Effect(SetOpen(st, channel, true), [])
      else if code == SS_CLOSE then Effect(SetOpen(st, channel, false), [])
      else Effect(st, [])
    case SerGetStat(_, _) => Effect(st, [])
    case FastWrite(channel, b) => Effect(Deposit(st, channel, [b]), [])
    case Unknown(_) => Effect(st, [])
  }

  function ExecPlain(st: State, op: Opcode, clock: Clock): Effect
    requires Valid(st)
  {
    match op
    case OpTime => Effect(st.(ticks := st.ticks + 1), clock(st.ticks))
    case OpPrintFlush => Effect(st.(printBuffer := []), [])
    case OpSerRead => Poll(st)
    case _ => Effect(st, [])
  }

  function ExecAll(st: State, cs: seq<Command>, clock: Clock): (r: Effect)
    requires Valid(st)
    ensures Valid(r.st)
    decreases |cs|
  {
    if cs == [] then Effect(st, [])
    else
      var e := Exec(st, cs[0], clock);
      var r := ExecAll(e.st, cs[1..], clock);
      Effect(r.st, e.out + r.out)
  }

  /** What has already been sent when a command's payload is cut short. READEX alone
      replies (with the sector) before it has read all of its payload. */
  function PartialReply(st: State, d: Decoded, p: seq<Byte>): seq<Byte>
    requires Valid(st)
  {
    if (d == Op(OpReadEx) || d == Op(OpRereadEx)) && |p| >= 4
    then ReadSector(st, p[0], LsnAt(p))
    else []
  }

  /** How a session ends: the stream stops between commands, or inside one. */
  datatype End = Eof | Truncated

  datatype Outcome = Outcome(st: State, out: seq<Byte>, end: End)

  function TailReply(st: State, tail: seq<Byte>): seq<Byte>
    requires Valid(st)
  {
    if tail == [] then [] else PartialReply(st, FromByte(tail[0]), tail[1..])
  }

  /** A whole session on the byte stream `s`. */
  function Serve(st: State, s: seq<Byte>, clock: Clock): Outcome
    requires Valid(st)
  {
    var session := Split(s);
    var r := ExecAll(st, session.cmds, clock);
    Outcome(r.st, r.out + TailReply(r.st, session.tail), if session.tail == [] then Eof else Truncated)
  }

  // ------------------------------------------------- control and host side

  /** Everything that can happen to the shared server state, one atomic step at a time. */
  datatype Event =
    | Guest(cmd: Command)
    | Mount(slot: Byte, path: Path, readOnly: bool)
    | Unmount(slot: Byte)
    | Relink(path: Path, target: Option<FileId>)  // the host renames, links or removes
    | HostSend(channel: Byte, bytes: seq<Byte>)
    | HostDrain(channel: Byte)

  function Apply(st: State, e: Event, clock: Clock): (r: Effect)
    requires Valid(st)
    ensures Valid(r.st)
  {
    match e
    case Guest(cmd) => Exec(st, cmd, clock)
    case Mount(slot, path, readOnly) =>
      if path !in st.names then Effect(st, [])
      else Effect(st.(drives := st.drives[slot := Opened(st.files, st.names, path, readOnly)]), [])
    case Unmount(slot) => Effect(st.(drives := st.drives - {slot}), [])
    case Relink(path, target) => Effect(st.(names := Relinked(st.files, st.names, path, target)), [])
    case HostSend(channel, bytes) =>
      if channel >= CHANNELS then Effect(st, [])
      else Effect(st.(outbox := st.outbox[channel := st.outbox[channel] + bytes]), [])
    case HostDrain(channel) =>
      if channel >= CHANNELS then Effect(st, [])
      else Effect(st.(inbox := st.inbox[channel := []]), st.inbox[channel])
  }
}
