/** What the disks hold after any history of commands, mounts and unmounts. */
module Storage {
  import opened Proto
  import opened Wire
  import opened ServerSpec
  import opened Stream

  function Replay(st: State, es: seq<Event>, clock: Clock): (r: State)
    requires Valid(st)
    ensures Valid(r)
    decreases |es|
  {
    if es == [] then st
    else Apply(Replay(st, es[..|es| - 1], clock), es[|es| - 1], clock).st
  }

  /** What the last event of a history was answered with. */
  function LastReply(st: State, es: seq<Event>, clock: Clock): seq<Byte>
    requires Valid(st) && es != []
  {
    Apply(Replay(st, es[..|es| - 1], clock), es[|es| - 1], clock).out
  }

  /** What the names stand for after a history, from the host's own events alone. */
  function Names(st: State, es: seq<Event>): (r: map<Path, FileId>)
    requires Valid(st)
    ensures Resolves(st.files, r)
  {
    if es == [] then st.names
    else
      var before := Names(st, es[..|es| - 1]);
      match es[|es| - 1]
      case Relink(path, target) => Relinked(st.files, before, path, target)
      case _ => before
  }

  /** The mount table after a history, from the mount, unmount and host events alone. */
  function Mounts(st: State, es: seq<Event>): map<Byte, Handle>
    requires Valid(st)
  {
    if es == [] then st.drives
    else
      var before := Mounts(st, es[..|es| - 1]);
      match es[|es| - 1]
      case Mount(slot, path, readOnly) =>
        var names := Names(st, es[..|es| - 1]);
        if path in names then before[slot := Opened(st.files, names, path, readOnly)] else before
      case Unmount(slot) => before - {slot}
      case _ => before
  }

  /** The byte at offset k of a file according to the guest's own view of the history: the
      last write that was acknowledged, through whatever slot was then mounted on that file,
      or else the byte the file started with. */
  function LastByte(st: State, es: seq<Event>, file: FileId, k: nat, clock: Clock): Byte
    requires Valid(st) && file in st.files && k < |st.files[file]|
    decreases |es|
  {
    if es == [] then st.files[file][k]
    else
      var init, e := es[..|es| - 1], es[|es| - 1];
      if e.Guest? && e.cmd.Write? && LastReply(st, es, clock) == [OK]
         && e.cmd.slot in Mounts(st, init) && Mounts(st, init)[e.cmd.slot].file == file
         && e.cmd.lsn == k / SECTOR_SIZE
      then e.cmd.sector[k % SECTOR_SIZE]
      else LastByte(st, init, file, k, clock)
  }

  /** A WRITE is acknowledged exactly when its checksum matches and the slot holds a
      writable image with that sector; otherwise nothing at all changes, and the answer says why. */
  lemma WriteAcknowledged(st: State, c: Command, clock: Clock)
    requires Valid(st) && c.Write?
    ensures var e := Exec(st, c, clock);
            var summed, mounted := c.guestSum == Checksum16(c.sector), c.slot in st.drives;
            var writable := mounted && !st.drives[c.slot].readOnly && c.lsn < st.drives[c.slot].sectorCount;
            (e.out == [0x00] <==> summed && writable)
            && (e.out == [0xF3] <==> !summed)
            && (e.out == [0xF6] <==> summed && !mounted)
            && (e.out == [0xF5] <==> summed && mounted && !writable)
            && (e.out != [0x00] ==> e.st == st)
            && (e.out == [0x00] ==>
                  ReadSector(e.st, c.slot, c.lsn) == c.sector
                  && (forall p :: p in st.files && p != st.drives[c.slot].file ==> e.st.files[p] == st.files[p]))
  {
  }

  predicate SameLengths(a: map<FileId, seq<Byte>>, b: map<FileId, seq<Byte>>) {
    a.Keys == b.Keys && forall p :: p in a ==> |a[p]| == |b[p]|
  }

  /** A command changes no name, and no file unless it is a WRITE. */
  lemma ExecFrame(st: State, c: Command, clock: Clock)
    requires Valid(st)
    ensures var r := Exec(st, c, clock).st;
            SameLengths(r.files, st.files) && r.names == st.names && (!c.Write? ==> r.files == st.files)
  {
    hide Checksum16, Fetch, WriteSector, ExecPlain, ReadSector, Valid;
    match c
    case Write(_, slot, lsn, sector, guestSum) => WriteFrame(st, slot, lsn, sector, guestSum);
    case Plain(op) => PlainFrame(st, op, clock);
    case SerReadM(channel, count) => FetchFrame(st, channel, count);
    case _ =>
  }

  lemma WriteFrame(st: State, slot: Byte, lsn: Lsn, sector: Sector, guestSum: U16)
    requires Valid(st)
    ensures var r := WriteSector(st, slot, lsn, sector, guestSum).st;
            SameLengths(r.files, st.files) && r.names == st.names
  {
    hide Checksum16;
  }

  lemma PlainFrame(st: State, op: Opcode, clock: Clock)
    requires Valid(st)
    ensures var r := ExecPlain(st, op, clock).st; r.files == st.files && r.names == st.names
  {
  }

  lemma FetchFrame(st: State, channel: Byte, count: Byte)
    requires Valid(st)
    ensures Fetch(st, channel, count).st.files == st.files && Fetch(st, channel, count).st.names == st.names
  {
  }

  lemma ApplyFrame(st: State, e: Event, clock: Clock)
    requires Valid(st)
    ensures var r := Apply(st, e, clock).st;
            SameLengths(r.files, st.files)
            && (!(e.Guest? && e.cmd.Write?) ==> r.files == st.files)
            && r.names == (if e.Relink? then Relinked(st.files, st.names, e.path, e.target) else st.names)
            && r.drives == match e
                           case Mount(slot, path, ro) =>
                             if path in st.names then st.drives[slot := Opened(st.files, st.names, path, ro)]
                             else st.drives
                           case Unmount(slot) => st.drives - {slot}
                           case _ => st.drives
  {
    hide Exec, Opened, Relinked;
    if e.Guest? { ExecFrame(st, e.cmd, clock); }
  }

  lemma {:induction false} ReplayMounts(st: State, es: seq<Event>, clock: Clock)
    requires Valid(st)
    ensures Replay(st, es, clock).drives == Mounts(st, es) && Replay(st, es, clock).names == Names(st, es)
    ensures SameLengths(Replay(st, es, clock).files, st.files)
    decreases |es|
  {
    if es != [] {
      hide Apply, SectorCount;
      ReplayMounts(st, es[..|es| - 1], clock);
      ApplyFrame(Replay(st, es[..|es| - 1], clock), es[|es| - 1], clock);
    }
  }

  lemma ApplyWriteByte(st: State, c: Command, file: FileId, k: nat, clock: Clock)
    requires Valid(st) && c.Write? && file in st.files && k < |st.files[file]|
    ensures var e := Exec(st, c, clock);
            file in e.st.files && |e.st.files[file]| == |st.files[file]|
            && e.st.files[file][k] ==
               if e.out == [OK] && c.slot in st.drives && st.drives[c.slot].file == file && c.lsn == k / SECTOR_SIZE
               then c.sector[k % SECTOR_SIZE] else st.files[file][k]
  {
  }

  /** Every byte of every file, after every history: exactly the last acknowledged write
      that covered it, or the byte it started with. Trailing bytes past the last whole
      sector are never covered, so they never change. */
  lemma {:induction false} FilesAreLastAcknowledged(st: State, es: seq<Event>, file: FileId, k: nat, clock: Clock)
    requires Valid(st) && file in st.files && k < |st.files[file]|
    ensures var r := Replay(st, es, clock);
            file in r.files && |r.files[file]| == |st.files[file]|
            && r.files[file][k] == LastByte(st, es, file, k, clock)
    decreases |es|
  {
    if es != [] {
      hide Apply, Exec;
      var init, e := es[..|es| - 1], es[|es| - 1];
      var mid := Replay(st, init, clock);
      FilesAreLastAcknowledged(st, init, file, k, clock);
      ReplayMounts(st, init, clock);
      ApplyFrame(mid, e, clock);
      if e.Guest? && e.cmd.Write? {
        ApplyWriteByte(mid, e.cmd, file, k, clock);
        assert Apply(mid, e, clock) == Exec(mid, e.cmd, clock) by { ApplyGuest(mid, e.cmd, clock); }
      }
    }
  }

  lemma ApplyGuest(st: State, c: Command, clock: Clock)
    requires Valid(st)
    ensures Apply(st, Guest(c), clock) == Exec(st, c, clock)
  {
  }

  /** Bytes past the last whole sector survive every history. */
  lemma {:induction false} TrailingBytesUntouched(st: State, es: seq<Event>, file: FileId, k: nat, clock: Clock)
    requires Valid(st) && file in st.files
    requires |st.files[file]| / SECTOR_SIZE * SECTOR_SIZE <= k < |st.files[file]|
    ensures LastByte(st, es, file, k, clock) == st.files[file][k]
    decreases |es|
  {
    if es != [] {
      hide Apply, Exec;
      var init, e := es[..|es| - 1], es[|es| - 1];
      TrailingBytesUntouched(st, init, file, k, clock);
      ReplayMounts(st, init, clock);
      var mid := Replay(st, init, clock);
      if e.Guest? && e.cmd.Write? {
        NotInTrailing(mid, e.cmd, file, k, clock);
      }
    }
  }

  lemma NotInTrailing(st: State, c: Command, file: FileId, k: nat, clock: Clock)
    requires Valid(st) && c.Write? && file in st.files && k < |st.files[file]|
    requires |st.files[file]| / SECTOR_SIZE * SECTOR_SIZE <= k
    ensures Apply(st, Guest(c), clock).out == [OK] && c.slot in st.drives && st.drives[c.slot].file == file ==>
              c.lsn != k / SECTOR_SIZE
  {
  }

  /** Reading back: OP_READ of a sector in range answers with the last acknowledged bytes of
      the file mounted there and their checksum, whichever slot wrote them. */
  lemma ReadReturnsLastAcknowledged(st: State, es: seq<Event>, retry: bool, slot: Byte, lsn: Lsn, clock: Clock)
    requires Valid(st) && slot in Mounts(st, es) && lsn < Mounts(st, es)[slot].sectorCount
    ensures var file := Mounts(st, es)[slot].file;
            var out := Exec(Replay(st, es, clock), Read(retry, slot, lsn), clock).out;
            file in st.files && (lsn as nat) * SECTOR_SIZE + SECTOR_SIZE <= |st.files[file]|
            && |out| == SECTOR_SIZE + 2
            && (forall i :: 0 <= i < SECTOR_SIZE ==>
                  out[i] == LastByte(st, es, file, (lsn as nat) * SECTOR_SIZE + i, clock))
            && Be16(out[256], out[257]) == Checksum16(out[..SECTOR_SIZE])
  {
    hide Checksum16, LastByte, Mounts, Replay;
    ReplayMounts(st, es, clock);
    var r := Replay(st, es, clock);
    var file := Mounts(st, es)[slot].file;
    var sector := ReadSector(r, slot, lsn);
    var out := Exec(r, Read(retry, slot, lsn), clock).out;
    assert out[..SECTOR_SIZE] == sector;
    forall i | 0 <= i < SECTOR_SIZE
      ensures out[i] == LastByte(st, es, file, (lsn as nat) * SECTOR_SIZE + i, clock)
    {
      FilesAreLastAcknowledged(st, es, file, (lsn as nat) * SECTOR_SIZE + i, clock);
    }
  }

  /** Renaming, linking and removing change what a path will stand for, and nothing that is mounted:
      the slots go on reading the files they were mounted on, and a later mount of the path gets
      the file it now stands for, or fails if there is none. */
  lemma RelinkKeepsMounts(st: State, path: Path, target: Option<FileId>, slot: Byte, readOnly: bool, clock: Clock)
    requires Valid(st)
    ensures var r := Apply(st, Relink(path, target), clock).st;
            r.files == st.files && r.drives == st.drives
            && (forall p :: p != path ==> (p in r.names <==> p in st.names))
            && (forall p :: p != path && p in st.names ==> r.names[p] == st.names[p])
            && var m := Apply(r, Mount(slot, path, readOnly), clock).st;
               if target.Some? && target.value in st.files
               then slot in m.drives && m.drives[slot].file == target.value && m.drives - {slot} == st.drives - {slot}
               else m == r
  {
    hide SectorCount;
  }

  // ------------------------------------------------- histories and sessions

  function Guests(cs: seq<Command>): seq<Event> { seq(|cs|, i requires 0 <= i < |cs| => Guest(cs[i])) }

  /** Commands executed in a row are one kind of history. */
  lemma {:induction false} ReplayCommands(st: State, cs: seq<Command>, clock: Clock)
    requires Valid(st)
    ensures Replay(st, Guests(cs), clock) == ExecAll(st, cs, clock).st
    decreases |cs|
  {
    hide Exec;
    if cs != [] {
      var init, last := cs[..|cs| - 1], cs[|cs| - 1];
      ReplayCommands(st, init, clock);
      assert Guests(cs)[..|cs| - 1] == Guests(init);
      assert cs == init + [last] && [last][1..] == [];
      ExecAllAppend(st, init, [last], clock);
      ApplyGuest(Replay(st, Guests(init), clock), last, clock);
    }
  }

  /** What a session leaves on the disks, for every byte stream the guest may send: each byte is
      the last write acknowledged among the stream's complete commands, or what it was. */
  lemma SessionFiles(st: State, s: seq<Byte>, file: FileId, k: nat, clock: Clock)
    requires Valid(st) && file in st.files && k < |st.files[file]|
    ensures var r := Serve(st, s, clock).st;
            r == Replay(st, Guests(Split(s).cmds), clock)
            && file in r.files && |r.files[file]| == |st.files[file]|
            && r.files[file][k] == LastByte(st, Guests(Split(s).cmds), file, k, clock)
  {
    hide Replay, LastByte, Guests, ExecAll, Split;
    ReplayCommands(st, Split(s).cmds, clock);
    FilesAreLastAcknowledged(st, Guests(Split(s).cmds), file, k, clock);
  }

  // ------------------------------------------------------- integrity

  /** A sector damaged on its way in, with only raised or only lowered bytes, is refused
      with the CRC error and no disk changes. */
  lemma DamagedWriteRefused(st: State, retry: bool, slot: Byte, lsn: Lsn, meant: Sector, got: Sector, clock: Clock)
    requires Valid(st) && meant != got && (Dominates(meant, got) || Dominates(got, meant))
    ensures Exec(st, Write(retry, slot, lsn, got, Checksum16(meant)), clock) == Effect(st, [E_CRC])
  {
    hide Checksum16;
    OneSidedCorruptionDetected(meant, got);
  }

  /** The same damage on the way out is caught by READEX, and only a checksum match clears it. */
  lemma DamagedReadReported(st: State, retry: bool, slot: Byte, lsn: Lsn, got: Sector, clock: Clock)
    requires Valid(st)
    ensures var sent := ReadSector(st, slot, lsn);
            var out := Exec(st, ReadEx(retry, slot, lsn, Checksum16(got)), clock).out;
            |out| == SECTOR_SIZE + 1 && out[..SECTOR_SIZE] == sent
            && (out[SECTOR_SIZE] == OK <==> Sum(got) == Sum(sent))
            && (sent != got && (Dominates(sent, got) || Dominates(got, sent)) ==> out[SECTOR_SIZE] == E_CRC)
  {
    hide Checksum16, Sum;
    var sent := ReadSector(st, slot, lsn);
    SectorChecksumExact(sent);
    SectorChecksumExact(got);
    if sent != got && (Dominates(sent, got) || Dominates(got, sent)) {
      OneSidedCorruptionDetected(sent, got);
    }
  }
}
