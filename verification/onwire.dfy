/** The protocol byte by byte: what a guest sees when it sends given bytes, stated on the bytes
    themselves and on the stored data, for every command and every place a command can be cut. */
module OnWire {
  import opened Proto
  import opened Wire
  import opened ServerSpec
  import opened Stream

  /** A stream that begins with `frame` is answered with `out`, and goes on from state st'. */
  ghost predicate Does(st: State, frame: seq<Byte>, st': State, out: seq<Byte>, clock: Clock)
    requires Valid(st)
  {
    Valid(st') && forall rest: seq<Byte> :: GoesOn(st, frame, rest, st', out, clock)
  }

  ghost predicate GoesOn(st: State, frame: seq<Byte>, rest: seq<Byte>, st': State, out: seq<Byte>, clock: Clock)
    requires Valid(st) && Valid(st')
  {
    var r := Serve(st', rest, clock);
    Serve(st, frame + rest, clock) == Outcome(r.st, out + r.out, r.end)
  }

  /** A stream that ends inside `frame` changes nothing and is answered with `out` at most. */
  ghost predicate Stops(st: State, part: seq<Byte>, out: seq<Byte>, clock: Clock)
    requires Valid(st)
  {
    Serve(st, part, clock) == Outcome(st, out, Truncated)
  }

  ghost predicate Cut(st: State, frame: seq<Byte>, clock: Clock)
    requires Valid(st)
  {
    forall k :: 0 < k < |frame| ==> Stops(st, frame[..k], [], clock)
  }

  lemma Runs(st: State, frame: seq<Byte>, c: Command, clock: Clock)
    requires Valid(st) && forall rest: seq<Byte> :: ParseOne(frame + rest) == Complete(c, |frame|)
    ensures var e := Exec(st, c, clock); Does(st, frame, e.st, e.out, clock)
  {
    hide Exec, ParseOne, Serve, Valid;
    var e := Exec(st, c, clock);
    forall rest: seq<Byte> ensures GoesOn(st, frame, rest, e.st, e.out, clock) {
      ServeStep(st, frame + rest, clock);
      assert (frame + rest)[|frame|..] == rest;
    }
  }

  lemma Sticks(st: State, part: seq<Byte>, clock: Clock)
    requires Valid(st) && part != [] && ParseOne(part).Incomplete? && TailReply(st, part) == []
    ensures Stops(st, part, [], clock)
  {
    ServeStuck(st, part, clock);
  }

  // --------------------------------------------------------------- bytes that do nothing

  predicate HasMeaning(b: Byte) {
    || b == 0x23 || b == 0x43 || b == 0x44 || b == 0x45 || b == 0x46 || b == 0x47 || b == 0x50 || b == 0x52
    || b == 0x53 || b == 0x57 || b == 0x5A || b == 0x63 || b == 0x64 || b == 0x72 || b == 0x77
    || 0x80 <= b <= 0x8F || b == 0xC3 || b == 0xC4 || b == 0xC5 || b == 0xD2 || b == 0xF2
  }

  /** Every other byte, opcode or line noise, is skipped alone. */
  lemma OtherBytesSkipped(st: State, b: Byte, clock: Clock)
    requires Valid(st) && !HasMeaning(b)
    ensures Does(st, [b], st, [], clock)
  {
    hide Serve, Valid;
    var c := if FromByte(b).Op? then Plain(FromByte(b).op) else Unknown(b);
    forall rest: seq<Byte> ensures ParseOne([b] + rest) == Complete(c, 1) {
      assert ([b] + rest)[1..] == rest;
    }
    Runs(st, [b], c, clock);
  }

  // ------------------------------------------------------------------------------ disks

  /** What is stored at sector n of the image in a slot, on the file's bytes. */
  predicate StoredAt(st: State, slot: Byte, n: nat, sector: seq<Byte>)
    requires Valid(st)
  {
    if slot in st.drives && n < st.drives[slot].sectorCount
    then sector == st.files[st.drives[slot].file][n * 256..n * 256 + 256]
    else |sector| == 256 && forall i :: 0 <= i < 256 ==> sector[i] == 0
  }

  lemma ReadIsStored(st: State, slot: Byte, lsn: Lsn)
    requires Valid(st)
    ensures StoredAt(st, slot, lsn, ReadSector(st, slot, lsn))
    ensures forall s :: StoredAt(st, slot, lsn, s) ==> s == ReadSector(st, slot, lsn)
  {
  }

  lemma ReadParses(op: Byte, slot: Byte, b0: Byte, b1: Byte, b2: Byte, rest: seq<Byte>)
    requires op == 0x52 || op == 0x72
    ensures ParseOne([op, slot, b0, b1, b2] + rest) ==
            Complete(Read(op == 0x72, slot, b0 * 65536 + b1 * 256 + b2), 5)
  {
    var p := ([op, slot, b0, b1, b2] + rest)[1..];
    assert p == [slot, b0, b1, b2] + rest;
  }

  lemma ReadCut(st: State, op: Byte, part: seq<Byte>, clock: Clock)
    requires Valid(st) && (op == 0x52 || op == 0x72) && |part| < 4
    ensures Stops(st, [op] + part, [], clock)
  {
    hide Serve, Valid;
    assert ([op] + part)[1..] == part;
    Sticks(st, [op] + part, clock);
  }

  lemma CutBy(st: State, op: Byte, payload: seq<Byte>, clock: Clock)
    requires Valid(st) && forall k :: 0 <= k < |payload| ==> Stops(st, [op] + payload[..k], [], clock)
    ensures Cut(st, [op] + payload, clock)
  {
    hide Stops, Valid;
    var frame := [op] + payload;
    forall k | 0 < k < |frame| ensures Stops(st, frame[..k], [], clock) {
      assert frame[..k] == [op] + payload[..k - 1];
    }
  }

  /** READ (0x52) and its retry (0x72): the 256 bytes stored at the big-endian sector number, zeros
      where there is no such sector, then their byte sum, high byte first. */
  lemma ReadOnWire(st: State, op: Byte, slot: Byte, b0: Byte, b1: Byte, b2: Byte, sector: seq<Byte>, clock: Clock)
    returns (hi: Byte, lo: Byte)
    requires Valid(st) && (op == 0x52 || op == 0x72) && StoredAt(st, slot, b0 * 65536 + b1 * 256 + b2, sector)
    ensures hi * 256 + lo == Sum(sector)
    ensures Does(st, [op, slot, b0, b1, b2], st, sector + [hi, lo], clock)
    ensures Cut(st, [op, slot, b0, b1, b2], clock)
  {
    hide Serve, Valid, ParseOne, StoredAt, Checksum16, Does, Cut;
    var lsn: Lsn := b0 * 65536 + b1 * 256 + b2;
    var c := Read(op == 0x72, slot, lsn);
    ReadIsStored(st, slot, lsn);
    SectorChecksumExact(sector);
    hi, lo := Sum(sector) / 256, Sum(sector) % 256;
    assert ToBe16(Sum(sector)) == [hi, lo];
    forall rest: seq<Byte> ensures ParseOne([op, slot, b0, b1, b2] + rest) == Complete(c, 5) {
      ReadParses(op, slot, b0, b1, b2, rest);
    }
    Runs(st, [op, slot, b0, b1, b2], c, clock);
    var payload := [slot, b0, b1, b2];
    forall k | 0 <= k < |payload| ensures Stops(st, [op] + payload[..k], [], clock) {
      ReadCut(st, op, payload[..k], clock);
    }
    CutBy(st, op, payload, clock);
    assert [op] + payload == [op, slot, b0, b1, b2];
  }

  lemma ReadExParses(op: Byte, slot: Byte, b0: Byte, b1: Byte, b2: Byte, c0: Byte, c1: Byte, rest: seq<Byte>)
    requires op == 0xD2 || op == 0xF2
    ensures ParseOne([op, slot, b0, b1, b2, c0, c1] + rest) ==
            Complete(ReadEx(op == 0xF2, slot, b0 * 65536 + b1 * 256 + b2, c0 * 256 + c1), 7)
  {
    var p := ([op, slot, b0, b1, b2, c0, c1] + rest)[1..];
    assert p == [slot, b0, b1, b2, c0, c1] + rest;
  }

  lemma ReadExCut(st: State, op: Byte, part: seq<Byte>, clock: Clock)
    requires Valid(st) && (op == 0xD2 || op == 0xF2) && |part| < 6
    ensures |part| < 4 ==> Stops(st, [op] + part, [], clock)
    ensures |part| >= 4 ==> Stops(st, [op] + part, ReadSector(st, part[0], LsnAt(part)), clock)
  {
    hide Serve, Valid, ReadSector;
    assert ([op] + part)[1..] == part;
    ServeStuck(st, [op] + part, clock);
  }

  /** READEX (0xD2) and its retry (0xF2): the sector goes out as soon as its address is in; then
      the guest sends the sum it computed and is told 0x00 if it is right and 0xF3 if not. */
  lemma ReadExOnWire(st: State, op: Byte, slot: Byte, b0: Byte, b1: Byte, b2: Byte, c0: Byte, c1: Byte,
                     sector: seq<Byte>, clock: Clock)
    requires Valid(st) && (op == 0xD2 || op == 0xF2) && StoredAt(st, slot, b0 * 65536 + b1 * 256 + b2, sector)
    ensures Does(st, [op, slot, b0, b1, b2, c0, c1], st,
                 sector + [if c0 * 256 + c1 == Sum(sector) then 0x00 else 0xF3], clock)
    ensures Cut(st, [op, slot, b0, b1, b2], clock)
    ensures Stops(st, [op, slot, b0, b1, b2], sector, clock) && Stops(st, [op, slot, b0, b1, b2, c0], sector, clock)
  {
    hide Serve, Valid, ParseOne, StoredAt, Checksum16, Does, Cut, Stops, ReadSector;
    var lsn: Lsn := b0 * 65536 + b1 * 256 + b2;
    var c := ReadEx(op == 0xF2, slot, lsn, c0 * 256 + c1);
    ReadIsStored(st, slot, lsn);
    SectorChecksumExact(sector);
    forall rest: seq<Byte> ensures ParseOne([op, slot, b0, b1, b2, c0, c1] + rest) == Complete(c, 7) {
      ReadExParses(op, slot, b0, b1, b2, c0, c1, rest);
    }
    Runs(st, [op, slot, b0, b1, b2, c0, c1], c, clock);
    var payload := [slot, b0, b1, b2];
    forall k | 0 <= k < |payload| ensures Stops(st, [op] + payload[..k], [], clock) {
      ReadExCut(st, op, payload[..k], clock);
    }
    CutBy(st, op, payload, clock);
    assert [op] + payload == [op, slot, b0, b1, b2] && [op] + (payload + [c0]) == [op, slot, b0, b1, b2, c0];
    ReadExCut(st, op, payload, clock);
    ReadExCut(st, op, payload + [c0], clock);
  }

  lemma WriteParses(op: Byte, slot: Byte, b0: Byte, b1: Byte, b2: Byte, sector: Sector, c0: Byte, c1: Byte,
                    rest: seq<Byte>)
    requires op == 0x57 || op == 0x77
    ensures ParseOne([op, slot, b0, b1, b2] + sector + [c0, c1] + rest) ==
            Complete(Write(op == 0x77, slot, b0 * 65536 + b1 * 256 + b2, sector, c0 * 256 + c1), 263)
  {
    var p := ([op, slot, b0, b1, b2] + sector + [c0, c1] + rest)[1..];
    assert p == [slot, b0, b1, b2] + sector + [c0, c1] + rest;
    assert p[4..260] == sector && p[260] == c0 && p[261] == c1;
  }

  lemma WriteCut(st: State, op: Byte, part: seq<Byte>, clock: Clock)
    requires Valid(st) && (op == 0x57 || op == 0x77) && |part| < 262
    ensures Stops(st, [op] + part, [], clock)
  {
    hide Serve, Valid;
    assert ([op] + part)[1..] == part;
    Sticks(st, [op] + part, clock);
  }

  /** WRITE (0x57) and its retry (0x77): 263 bytes in, one status byte out. 0xF3 exactly if the sum
      is wrong; else 0xF6 exactly if nothing is mounted; else 0xF5 exactly if the image is
      read-only or has no such sector; else 0x00, and then exactly those 256 bytes of that file
      are replaced. */
  lemma WriteOnWire(st: State, op: Byte, slot: Byte, b0: Byte, b1: Byte, b2: Byte, sector: Sector, c0: Byte, c1: Byte,
                    clock: Clock) returns (status: Byte, st': State)
    requires Valid(st) && (op == 0x57 || op == 0x77)
    ensures Valid(st') && Does(st, [op, slot, b0, b1, b2] + sector + [c0, c1], st', [status], clock)
    ensures Cut(st, [op, slot, b0, b1, b2] + sector + [c0, c1], clock)
    ensures var n: nat := b0 * 65536 + b1 * 256 + b2;
            var summed, mounted := c0 * 256 + c1 == Sum(sector), slot in st.drives;
            var writable := mounted && !st.drives[slot].readOnly && n < st.drives[slot].sectorCount;
            (status == 0xF3 <==> !summed)
            && (status == 0xF6 <==> summed && !mounted)
            && (status == 0xF5 <==> summed && mounted && !writable)
            && (status == 0x00 <==> summed && writable)
            && (status != 0x00 ==> st' == st)
            && (status == 0x00 ==>
                  var f := st.drives[slot].file;
                  var content := st.files[f];
                  st' == st.(files := st.files[f := content[..n * 256] + sector + content[n * 256 + 256..]]))
  {
    hide Serve, ParseOne, Checksum16, Does, Cut, Stops;
    var lsn: Lsn := b0 * 65536 + b1 * 256 + b2;
    var c := Write(op == 0x77, slot, lsn, sector, c0 * 256 + c1);
    var frame := [op, slot, b0, b1, b2] + sector + [c0, c1];
    SectorChecksumExact(sector);
    var e := WriteSector(st, slot, lsn, sector, c0 * 256 + c1);
    status, st' := e.out[0], e.st;
    assert e.out == [status];
    hide Valid, WriteSector;
    forall rest: seq<Byte> ensures ParseOne(frame + rest) == Complete(c, 263) {
      WriteParses(op, slot, b0, b1, b2, sector, c0, c1, rest);
    }
    Runs(st, frame, c, clock);
    var payload := [slot, b0, b1, b2] + sector + [c0, c1];
    forall k | 0 <= k < |payload| ensures Stops(st, [op] + payload[..k], [], clock) {
      WriteCut(st, op, payload[..k], clock);
    }
    CutBy(st, op, payload, clock);
    assert [op] + payload == frame;
  }

  // ------------------------------------------------------------ clock, printer, status

  /** A command that is one byte long. */
  lemma Single(st: State, b: Byte, c: Command, clock: Clock)
    requires Valid(st) && forall rest: seq<Byte> :: ParsePayload(FromByte(b), rest) == Complete(c, 0)
    ensures var e := Exec(st, c, clock); Does(st, [b], e.st, e.out, clock)
  {
    hide Serve, Valid, Exec, Does, ParsePayload;
    forall rest: seq<Byte> ensures ParseOne([b] + rest) == Complete(c, 1) {
      assert ([b] + rest)[1..] == rest;
    }
    Runs(st, [b], c, clock);
  }

  /** A command with a fixed payload, and every way it can be cut short. */
  lemma Framed(st: State, op: Byte, payload: seq<Byte>, c: Command, clock: Clock)
    requires Valid(st) && FromByte(op) != Op(OpReadEx) && FromByte(op) != Op(OpRereadEx)
    requires forall rest: seq<Byte> :: ParsePayload(FromByte(op), payload + rest) == Complete(c, |payload|)
    requires forall k :: 0 <= k < |payload| ==> ParsePayload(FromByte(op), payload[..k]).Incomplete?
    ensures var e := Exec(st, c, clock); Does(st, [op] + payload, e.st, e.out, clock)
    ensures Cut(st, [op] + payload, clock)
  {
    hide Serve, Valid, Exec, Does, Cut, Stops, ParsePayload, FromByte;
    forall rest: seq<Byte> ensures ParseOne(([op] + payload) + rest) == Complete(c, |[op] + payload|) {
      assert (([op] + payload) + rest)[1..] == payload + rest;
    }
    Runs(st, [op] + payload, c, clock);
    forall k | 0 <= k < |payload| ensures Stops(st, [op] + payload[..k], [], clock) {
      assert ([op] + payload[..k])[1..] == payload[..k];
      Sticks(st, [op] + payload[..k], clock);
    }
    CutBy(st, op, payload, clock);
  }

  /** TIME (0x23) answers the six bytes of the clock; PRINTFLUSH (0x46) empties the print buffer. */
  lemma TimeAndFlushOnWire(st: State, clock: Clock)
    requires Valid(st)
    ensures Does(st, [0x23], st.(ticks := st.ticks + 1), clock(st.ticks), clock)
    ensures Does(st, [0x46], st.(printBuffer := []), [], clock)
  {
    hide Serve, Does;
    Single(st, 0x23, Plain(OpTime), clock);
    Single(st, 0x46, Plain(OpPrintFlush), clock);
  }

  /** PRINT (0x50) keeps its byte; DWINIT (0x5A) takes one byte and answers 0x04. */
  lemma PrintAndInitOnWire(st: State, b: Byte, clock: Clock)
    requires Valid(st)
    ensures Does(st, [0x50, b], st.(printBuffer := st.printBuffer + [b]), [], clock) && Cut(st, [0x50, b], clock)
    ensures Does(st, [0x5A, b], st, [0x04], clock) && Cut(st, [0x5A, b], clock)
  {
    hide Serve, Does, Cut;
    assert [0x50] + [b] == [0x50, b] && [0x5A] + [b] == [0x5A, b];
    Framed(st, 0x50, [b], Print(b), clock);
    Framed(st, 0x5A, [b], DwInit(b), clock);
  }

  /** GETSTAT (0x47), SETSTAT (0x53) and SERGETSTAT (0x44) take two bytes and do nothing. */
  lemma StatOnWire(st: State, op: Byte, a: Byte, b: Byte, clock: Clock)
    requires Valid(st) && (op == 0x47 || op == 0x53 || op == 0x44)
    ensures Does(st, [op, a, b], st, [], clock) && Cut(st, [op, a, b], clock)
  {
    hide Serve, Does, Cut;
    assert [op] + [a, b] == [op, a, b];
    Framed(st, op, [a, b], if op == 0x44 then SerGetStat(a, b) else Stat(op == 0x53, a, b), clock);
  }

  // ------------------------------------------------------------------- virtual serial

  /** SERINIT (0x45) opens a channel and SERTERM (0xC5) closes it; there are sixteen. */
  lemma InitTermOnWire(st: State, ch: Byte, clock: Clock)
    requires Valid(st)
    ensures Does(st, [0x45, ch], if ch < 16 then st.(open := st.open[ch := true]) else st, [], clock)
    ensures Does(st, [0xC5, ch], if ch < 16 then st.(open := st.open[ch := false]) else st, [], clock)
    ensures Cut(st, [0x45, ch], clock) && Cut(st, [0xC5, ch], clock)
  {
    hide Serve, Does, Cut;
    assert [0x45] + [ch] == [0x45, ch] && [0xC5] + [ch] == [0xC5, ch];
    Framed(st, 0x45, [ch], SerInit(ch), clock);
    Framed(st, 0xC5, [ch], SerTerm(ch), clock);
  }

  /** SERSETSTAT (0xC4): code 0x29 opens, 0x2A closes, 0x28 brings 26 more bytes, others nothing. */
  lemma SetStatOnWire(st: State, ch: Byte, code: Byte, status: seq<Byte>, clock: Clock)
    requires Valid(st) && |status| == if code == 0x28 then 26 else 0
    ensures Does(st, [0xC4, ch, code] + status,
                 if ch < 16 && (code == 0x29 || code == 0x2A) then st.(open := st.open[ch := code == 0x29]) else st,
                 [], clock)
    ensures Cut(st, [0xC4, ch, code] + status, clock)
  {
    hide Serve, Does, Cut;
    var payload := [ch, code] + status;
    forall rest: seq<Byte>
      ensures ParsePayload(FromByte(0xC4), payload + rest) == Complete(SerSetStat(ch, code, status), |payload|)
    {
      assert (payload + rest)[2..2 + |status|] == status;
    }
    assert [0xC4] + payload == [0xC4, ch, code] + status;
    Framed(st, 0xC4, payload, SerSetStat(ch, code, status), clock);
  }

  /** SERWRITE (0xC3) and FASTWRITE (0x80 to 0x8F) append one byte to a channel's inbox. */
  lemma SerWriteOnWire(st: State, ch: Byte, b: Byte, clock: Clock)
    requires Valid(st)
    ensures var st' := if ch < 16 then st.(inbox := st.inbox[ch := st.inbox[ch] + [b]]) else st;
            Does(st, [0xC3, ch, b], st', [], clock) && Cut(st, [0xC3, ch, b], clock)
            && (ch < 16 ==> Does(st, [0x80 + ch, b], st', [], clock) && Cut(st, [0x80 + ch, b], clock))
  {
    hide Serve, Does, Cut;
    assert [0xC3] + [ch, b] == [0xC3, ch, b];
    Framed(st, 0xC3, [ch, b], SerWrite(ch, b), clock);
    if ch < 16 {
      assert [0x80 + ch] + [b] == [0x80 + ch, b];
      Framed(st, 0x80 + ch, [b], FastWrite(ch, b), clock);
    }
  }

  /** SERWRITEM (0x64): channel, count, and that many bytes, appended together. */
  lemma SerWriteMOnWire(st: State, ch: Byte, bytes: seq<Byte>, clock: Clock)
    requires Valid(st) && |bytes| < 256
    ensures Does(st, [0x64, ch, |bytes|] + bytes,
                 if ch < 16 then st.(inbox := st.inbox[ch := st.inbox[ch] + bytes]) else st, [], clock)
    ensures Cut(st, [0x64, ch, |bytes|] + bytes, clock)
  {
    hide Serve, Does, Cut;
    var payload := [ch, |bytes|] + bytes;
    forall rest: seq<Byte>
      ensures ParsePayload(FromByte(0x64), payload + rest) == Complete(SerWriteM(ch, bytes), |payload|)
    {
      assert (payload + rest)[2..2 + |bytes|] == bytes;
    }
    assert [0x64] + payload == [0x64, ch, |bytes|] + bytes;
    Framed(st, 0x64, payload, SerWriteM(ch, bytes), clock);
  }

  /** SERREADM (0x63): exactly the requested number of bytes, the front of the outbox and then
      zeros; what was taken leaves the outbox. */
  lemma SerReadMOnWire(st: State, ch: Byte, count: Byte, front: seq<Byte>, back: seq<Byte>, clock: Clock)
    requires Valid(st)
    requires if ch < 16 then st.outbox[ch] == front + back else front == []
    requires |front| == count || (|front| < count && (ch < 16 ==> back == []))
    ensures Does(st, [0x63, ch, count], if ch < 16 then st.(outbox := st.outbox[ch := back]) else st,
                 front + seq(count - |front|, _ => 0), clock)
    ensures Cut(st, [0x63, ch, count], clock)
  {
    hide Serve, Does, Cut;
    assert [0x63] + [ch, count] == [0x63, ch, count];
    Framed(st, 0x63, [ch, count], SerReadM(ch, count), clock);
    var e := Exec(st, SerReadM(ch, count), clock);
    if ch < 16 {
      assert st.outbox[ch][..|front|] == front && st.outbox[ch][|front|..] == back;
    }
    assert e.out == front + seq(count - |front|, _ => 0);
  }

  /** SERREAD (0x43), when channel ch is the lowest with bytes waiting: one or two bytes are handed
      over one at a time under code 1 + ch; three or more are announced under code 17 + ch with
      their number, at most 255. With nothing waiting the answer is two zeros. */
  lemma SerReadOnWire(st: State, ch: nat, clock: Clock)
    requires Valid(st) && ch <= 16 && forall j :: 0 <= j < ch ==> st.outbox[j] == []
    requires ch < 16 ==> st.outbox[ch] != []
    ensures ch == 16 ==> Does(st, [0x43], st, [0x00, 0x00], clock)
    ensures ch < 16 && |st.outbox[ch]| < 3 ==>
              Does(st, [0x43], st.(outbox := st.outbox[ch := st.outbox[ch][1..]]), [0x01 + ch, st.outbox[ch][0]], clock)
    ensures ch < 16 && |st.outbox[ch]| >= 3 ==>
              Does(st, [0x43], st, [0x11 + ch, if |st.outbox[ch]| < 255 then |st.outbox[ch]| else 255], clock)
  {
    hide Serve, Does;
    Single(st, 0x43, Plain(OpSerRead), clock);
    assert LowestReady(st.outbox) == ch;
  }
}
