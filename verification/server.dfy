/** The server itself: shared state mutated by the opcode handlers of a dispatch loop that
    reads an unframed byte stream. */
module ServerLoop {
  import opened Proto
  import opened Wire
  import opened ServerSpec
  import opened Stream
  import opened Transport
  import opened VDisk

  /** Loop invariant of a session: the whole outcome is what has been sent so far followed
      by the outcome of serving what is left. */
  ghost predicate Accounts(whole: Outcome, out: seq<Byte>, st: State, rest: seq<Byte>, clock: Clock)
    requires ServerSpec.Valid(st)
  {
    var r := Serve(st, rest, clock);
    whole == Outcome(r.st, out + r.out, r.end)
  }

  lemma AccountsInit(st: State, input: seq<Byte>, clock: Clock)
    requires ServerSpec.Valid(st)
    ensures Accounts(Serve(st, input, clock), [], st, input, clock)
  {
  }

  /** What a handler owes the dispatch loop: if its payload is all there, the command's
      effect and reply, with exactly the payload consumed; otherwise an unchanged server. */
  ghost predicate Owed(d: Decoded, st: State, input: seq<Byte>, sent: seq<Byte>, clock: Clock,
                       ok: bool, st': State, sent': seq<Byte>, rest: seq<Byte>)
    requires ServerSpec.Valid(st)
  {
    match ParsePayload(d, input)
    case Complete(c, n) =>
      var e := Exec(st, c, clock);
      ok && st' == e.st && sent' == sent + e.out && rest == input[n..]
    case Incomplete =>
      !ok && st' == st && sent' == sent + PartialReply(st, d, input) && rest == []
  }

  lemma AccountsEnd(whole: Outcome, out: seq<Byte>, st: State, clock: Clock)
    requires ServerSpec.Valid(st) && Accounts(whole, out, st, [], clock)
    ensures whole == Outcome(st, out, Eof)
  {
  }

  /** A handler that did what it owes keeps the session's account, or closes it. */
  lemma AccountsTurn(whole: Outcome, sent: seq<Byte>, out: seq<Byte>, st: State, input: seq<Byte>, clock: Clock,
                     ok: bool, st': State, sent': seq<Byte>, rest: seq<Byte>)
    returns (out': seq<Byte>)
    requires ServerSpec.Valid(st) && ServerSpec.Valid(st')
    requires Accounts(whole, out, st, input, clock) && input != []
    requires Owed(FromByte(input[0]), st, input[1..], sent + out, clock, ok, st', sent', rest)
    ensures sent' == sent + out'
    ensures if ok then Accounts(whole, out', st', rest, clock) && |rest| < |input|
            else whole == Outcome(st', out', Truncated) && rest == []
  {
    hide ParsePayload, Exec, Serve, FromByte, PartialReply;
    var p := ParseOne(input);
    if p.Incomplete? {
      ServeStuck(st, input, clock);
      var reply := PartialReply(st, FromByte(input[0]), input[1..]);
      out' := out + reply;
      Assoc(sent, out, reply);
    } else {
      ServeStep(st, input, clock);
      var n := p.used - 1;
      assert input[1..][n..] == input[p.used..];
      var e := Exec(st, p.cmd, clock);
      out' := out + e.out;
      Assoc(sent, out, e.out);
      Assoc(out, e.out, Serve(e.st, rest, clock).out);
    }
  }

  // The duties of each handler, spelled out.

  lemma OwedNothing(d: Decoded, st: State, input: seq<Byte>, sent: seq<Byte>, clock: Clock)
    requires ServerSpec.Valid(st)
    requires d.Junk? || (d.Op? && HasNoPayload(d.op) && d.op != OpTime && d.op != OpPrintFlush && d.op != OpSerRead)
    ensures Owed(d, st, input, sent, clock, true, st, sent, input)
  {
  }

  lemma OwedTime(st: State, input: seq<Byte>, sent: seq<Byte>, clock: Clock)
    requires ServerSpec.Valid(st)
    ensures Owed(Op(OpTime), st, input, sent, clock, true, st.(ticks := st.ticks + 1), sent + clock(st.ticks), input)
  {
  }

  lemma OwedPrintFlush(st: State, input: seq<Byte>, sent: seq<Byte>, clock: Clock)
    requires ServerSpec.Valid(st)
    ensures Owed(Op(OpPrintFlush), st, input, sent, clock, true, st.(printBuffer := []), sent, input)
  {
  }

  lemma OwedSerRead(st: State, input: seq<Byte>, sent: seq<Byte>, clock: Clock)
    requires ServerSpec.Valid(st)
    ensures Owed(Op(OpSerRead), st, input, sent, clock, true, Poll(st).st, sent + Poll(st).out, input)
  {
  }

  lemma OwedDwInit(st: State, input: seq<Byte>, sent: seq<Byte>, clock: Clock)
    requires ServerSpec.Valid(st)
    ensures if |input| < 1 then Owed(Op(OpDwInit), st, input, sent, clock, false, st, sent, [])
            else Owed(Op(OpDwInit), st, input, sent, clock, true, st, sent + [DWINIT_RESPONSE], input[1..])
  {
  }

  lemma OwedStat(d: Decoded, st: State, input: seq<Byte>, sent: seq<Byte>, clock: Clock)
    requires ServerSpec.Valid(st) && (d == Op(OpGetStat) || d == Op(OpSetStat) || d == Op(OpSerGetStat))
    ensures if |input| < 2 then Owed(d, st, input, sent, clock, false, st, sent, [])
            else Owed(d, st, input, sent, clock, true, st, sent, input[2..])
  {
  }

  lemma OwedPrint(st: State, input: seq<Byte>, sent: seq<Byte>, clock: Clock)
    requires ServerSpec.Valid(st)
    ensures if |input| < 1 then Owed(Op(OpPrint), st, input, sent, clock, false, st, sent, [])
            else
              var st' := st.(printBuffer := st.printBuffer + [input[0]]);
              Owed(Op(OpPrint), st, input, sent, clock, true, st', sent, input[1..])
  {
  }

  lemma OwedFastWrite(channel: Byte, st: State, input: seq<Byte>, sent: seq<Byte>, clock: Clock)
    requires ServerSpec.Valid(st)
    ensures if |input| < 1 then Owed(Fast(channel), st, input, sent, clock, false, st, sent, [])
            else Owed(Fast(channel), st, input, sent, clock, true, Deposit(st, channel, [input[0]]), sent, input[1..])
  {
  }

  lemma OwedSerInitTerm(value: bool, st: State, input: seq<Byte>, sent: seq<Byte>, clock: Clock)
    requires ServerSpec.Valid(st)
    ensures var d := Op(if value then OpSerInit else OpSerTerm);
            if |input| < 1 then Owed(d, st, input, sent, clock, false, st, sent, [])
            else Owed(d, st, input, sent, clock, true, SetOpen(st, input[0], value), sent, input[1..])
  {
  }

  lemma OwedSerWrite(st: State, input: seq<Byte>, sent: seq<Byte>, clock: Clock)
    requires ServerSpec.Valid(st)
    ensures if |input| < 2 then Owed(Op(OpSerWrite), st, input, sent, clock, false, st, sent, [])
            else Owed(Op(OpSerWrite), st, input, sent, clock, true, Deposit(st, input[0], [input[1]]), sent, input[2..])
  {
  }

  lemma OwedSerReadM(st: State, input: seq<Byte>, sent: seq<Byte>, clock: Clock)
    requires ServerSpec.Valid(st)
    ensures if |input| < 2 then Owed(Op(OpSerReadM), st, input, sent, clock, false, st, sent, [])
            else
              var r := Fetch(st, input[0], input[1]);
              Owed(Op(OpSerReadM), st, input, sent, clock, true, r.st, sent + r.out, input[2..])
  {
  }

  lemma OwedRead(d: Decoded, st: State, input: seq<Byte>, sent: seq<Byte>, clock: Clock)
    requires ServerSpec.Valid(st) && (d == Op(OpRead) || d == Op(OpReread))
    ensures if |input| < 4 then Owed(d, st, input, sent, clock, false, st, sent, [])
            else var sector := ReadSector(st, input[0], LsnAt(input));
                 Owed(d, st, input, sent, clock, true, st, sent + (sector + ToBe16(Checksum16(sector))), input[4..])
  {
  }

  lemma OwedReadEx(d: Decoded, st: State, input: seq<Byte>, sent: seq<Byte>, clock: Clock)
    requires ServerSpec.Valid(st) && (d == Op(OpReadEx) || d == Op(OpRereadEx))
    ensures if |input| < 4 then Owed(d, st, input, sent, clock, false, st, sent, [])
            else var sector := ReadSector(st, input[0], LsnAt(input));
                 if |input| < 6 then Owed(d, st, input, sent, clock, false, st, sent + sector, [])
                 else var status := if Be16(input[4], input[5]) == Checksum16(sector) then OK else E_CRC;
                      Owed(d, st, input, sent, clock, true, st, sent + (sector + [status]), input[6..])
  {
  }

  lemma OwedWrite(d: Decoded, st: State, input: seq<Byte>, sent: seq<Byte>, clock: Clock)
    requires ServerSpec.Valid(st) && (d == Op(OpWrite) || d == Op(OpRewrite))
    ensures if |input| < 262 then Owed(d, st, input, sent, clock, false, st, sent, [])
            else var e := WriteSector(st, input[0], LsnAt(input), input[4..260], Be16(input[260], input[261]));
                 Owed(d, st, input, sent, clock, true, e.st, sent + e.out, input[262..])
  {
  }

  lemma OwedSerWriteM(st: State, input: seq<Byte>, sent: seq<Byte>, clock: Clock)
    requires ServerSpec.Valid(st)
    ensures var d := Op(OpSerWriteM);
            if |input| < 2 || |input| < 2 + (input[1] as nat)
            then Owed(d, st, input, sent, clock, false, st, sent, [])
            else var end: nat := 2 + (input[1] as nat);
                 Owed(d, st, input, sent, clock, true, Deposit(st, input[0], input[2..end]), sent, input[end..])
  {
  }

  lemma OwedSerSetStat(st: State, input: seq<Byte>, sent: seq<Byte>, clock: Clock)
    requires ServerSpec.Valid(st)
    ensures var d := Op(OpSerSetStat);
            if |input| < 2 || |input| < 2 + StatusLen(input[1])
            then Owed(d, st, input, sent, clock, false, st, sent, [])
            else
              var channel, code := input[0], input[1];
              var st' := if code == SS_OPEN then SetOpen(st, channel, true)
                         else if code == SS_CLOSE then SetOpen(st, channel, false) else st;
              Owed(d, st, input, sent, clock, true, st', sent, input[2 + StatusLen(code)..])
  {
  }

  class Server {
    const volume: Volume
    const clock: Clock
    var drives: map<Byte, DskFile>
    var printBuffer: seq<Byte>
    var inbox: seq<seq<Byte>>
    var outbox: seq<seq<Byte>>
    var open: seq<bool>
    var ticks: nat

    ghost predicate Valid()
      reads this, volume
    {
      && |inbox| == CHANNELS && |outbox| == CHANNELS && |open| == CHANNELS
      && Resolves(volume.files, volume.names)
      && forall slot :: slot in drives ==> drives[slot].volume == volume && drives[slot].Valid()
    }

    /** The abstract state. */
    ghost function Abs(): (st: State)
      requires Valid()
      reads this, volume
      ensures ServerSpec.Valid(st)
    {
      State(volume.files, volume.names, map slot | slot in drives :: drives[slot].ToHandle(),
            printBuffer, inbox, outbox, open, ticks)
    }

    constructor (volume: Volume, clock: Clock)
      requires Resolves(volume.files, volume.names)
      ensures Valid() && this.volume == volume && this.clock == clock
      ensures Abs() == State(volume.files, volume.names, map[], [], seq(CHANNELS, _ => []), seq(CHANNELS, _ => []),
                             seq(CHANNELS, _ => false), 0)
    {
      this.volume, this.clock := volume, clock;
      drives, printBuffer, ticks := map[], [], 0;
      inbox, outbox := seq(CHANNELS, _ => []), seq(CHANNELS, _ => []);
      open := seq(CHANNELS, _ => false);
    }

    // ------------------------------------------------------- host side

    method MountDsk(slot: Byte, path: Path, readOnly: bool) returns (found: bool)
      requires Valid()
      modifies this`drives
      ensures Valid() && found == (path in volume.names)
      ensures Abs() == Apply(old(Abs()), Event.Mount(slot, path, readOnly), clock).st
    {
      found := path in volume.names;
      if found {
        var disk := new DskFile.Open(volume, path, readOnly);
        drives := drives[slot := disk];
        assert Abs().drives == old(Abs()).drives[slot := disk.ToHandle()];
      }
    }

    method Unmount(slot: Byte)
      requires Valid()
      modifies this`drives
      ensures Valid() && Abs() == Apply(old(Abs()), Event.Unmount(slot), clock).st
    {
      drives := drives - {slot};
    }

    method SendToVserial(channel: Byte, bytes: seq<Byte>)
      requires Valid()
      modifies this`outbox
      ensures Valid() && Abs() == Apply(old(Abs()), HostSend(channel, bytes), clock).st
    {
      if channel >= CHANNELS {
        return;
      }
      outbox := outbox[channel := outbox[channel] + bytes];
    }

    method DrainVserial(channel: Byte) returns (bytes: seq<Byte>)
      requires Valid()
      modifies this`inbox
      ensures Valid() && Effect(Abs(), bytes) == Apply(old(Abs()), HostDrain(channel), clock)
    {
      if channel >= CHANNELS {
        return [];
      }
      bytes := inbox[channel];
      inbox := inbox[channel := []];
    }

    method PushVserial(channel: Byte, b: Byte)
      requires Valid()
      modifies this`inbox
      ensures Valid() && Abs() == Deposit(old(Abs()), channel, [b])
    {
      if channel >= CHANNELS {
        return;
      }
      inbox := inbox[channel := inbox[channel] + [b]];
    }

    method SetChannelOpen(channel: Byte, value: bool)
      requires Valid()
      modifies this`open
      ensures Valid() && Abs() == SetOpen(old(Abs()), channel, value)
    {
      if channel >= CHANNELS {
        return;
      }
      open := open[channel := value];
    }

    // -------------------------------------------------------- handlers

    ghost predicate Handled(d: Decoded, st: State, input: seq<Byte>, sent: seq<Byte>, t: BlockingSerial, ok: bool)
      requires Valid() && ServerSpec.Valid(st)
      reads this, volume, t
    {
      Owed(d, st, input, sent, clock, ok, Abs(), t.Written(), t.Remaining())
    }

    /** Lookup and disk read; every failure reads as zeros. */
    method ReadSlot(slot: Byte, lsn: Lsn) returns (sector: Sector)
      requires Valid()
      modifies drives.Values
      ensures Valid() && Abs() == old(Abs()) && sector == ReadSector(Abs(), slot, lsn)
    {
      sector := ZeroSector();
      if slot in drives {
        var r := drives[slot].Read(lsn);
        if r.ReadOk? {
          sector := r.sector;
        }
      }
    }

    /** Lookup and disk write, for a sector whose checksum has been accepted. */
    method WriteSlot(slot: Byte, lsn: Lsn, sector: Sector) returns (status: Byte)
      requires Valid()
      modifies volume`files, drives.Values
      ensures Valid()
      ensures Effect(Abs(), [status]) == WriteSector(old(Abs()), slot, lsn, sector, Checksum16(sector))
    {
      status := E_NOT_READY;
      if slot in drives {
        var r := drives[slot].Write(lsn, sector);
        status := if r.None? then OK else E_WRITE;
      }
    }

    method HandleRead(t: BlockingSerial, extended: bool, ghost d: Decoded) returns (ok: bool)
      requires Valid() && t.Valid()
      requires extended ==> d == Op(OpReadEx) || d == Op(OpRereadEx)
      requires !extended ==> d == Op(OpRead) || d == Op(OpReread)
      modifies t, drives.Values
      ensures Valid() && t.Valid()
      ensures Handled(d, old(Abs()), old(t.Remaining()), old(t.Written()), t, ok)
    {
      hide Owed, FromBe3, Be16, ToBe16, Checksum16, ReadSector;
      ghost var input, sent := t.Remaining(), t.Written();
      if extended {
        OwedReadEx(d, Abs(), input, sent, clock);
      } else {
        OwedRead(d, Abs(), input, sent, clock);
      }
      var hdr := t.ReadExact(4);
      if hdr.None? {
        return false;
      }
      var slot, lsn := hdr.value[0], FromBe3(hdr.value[1], hdr.value[2], hdr.value[3]);
      var sector := ReadSlot(slot, lsn);
      t.WriteAll(sector);
      var hostSum := Checksum16(sector);
      if extended {
        var sum := t.ReadExact(2);
        if sum.None? {
          return false;
        }
        var status := if Be16(sum.value[0], sum.value[1]) == hostSum then OK else E_CRC;
        t.WriteAll([status]);
        Assoc(sent, sector, [status]);
        assert t.Remaining() == input[6..];
      } else {
        t.WriteAll(ToBe16(hostSum));
        Assoc(sent, sector, ToBe16(hostSum));
      }
      ok := true;
    }

    /** The 262 payload bytes of a WRITE, in the three reads the handler makes. */
    method ReceiveWrite(t: BlockingSerial)
      returns (ok: bool, slot: Byte, lsn: Lsn, sector: Sector, guestSum: U16)
      requires t.Valid()
      modifies t`leftover, t`rx
      ensures t.Valid() && ok == (|old(t.Remaining())| >= 262)
      ensures var p := old(t.Remaining());
              if ok then slot == p[0] && lsn == LsnAt(p) && sector == p[4..260] && guestSum == Be16(p[260], p[261])
                         && t.Remaining() == p[262..]
              else t.Remaining() == []
    {
      hide FromBe3, Be16;
      ghost var input := t.Remaining();
      ok, slot, lsn, sector, guestSum := false, 0, 0, ZeroSector(), 0;
      var hdr := t.ReadExact(4);
      if hdr.None? {
        return;
      }
      slot, lsn := hdr.value[0], FromBe3(hdr.value[1], hdr.value[2], hdr.value[3]);
      var body := t.ReadExact(SECTOR_SIZE);
      if body.None? {
        return;
      }
      sector := body.value;
      var sum := t.ReadExact(2);
      if sum.None? {
        return;
      }
      assert t.Remaining() == input[262..];
      ok, guestSum := true, Be16(sum.value[0], sum.value[1]);
    }

    method HandleWrite(t: BlockingSerial, ghost d: Decoded) returns (ok: bool)
      requires Valid() && t.Valid()
      requires d == Op(OpWrite) || d == Op(OpRewrite)
      modifies t, volume`files, drives.Values
      ensures Valid() && t.Valid()
      ensures Handled(d, old(Abs()), old(t.Remaining()), old(t.Written()), t, ok)
    {
      hide Owed, LsnAt, Be16, Checksum16;
      OwedWrite(d, Abs(), t.Remaining(), t.Written(), clock);
      var slot, lsn, sector, guestSum;
      ok, slot, lsn, sector, guestSum := ReceiveWrite(t);
      if !ok {
        return;
      }
      if guestSum != Checksum16(sector) {
        t.WriteAll([E_CRC]);
        return;
      }
      var status := WriteSlot(slot, lsn, sector);
      t.WriteAll([status]);
    }

    method HandleDwInit(t: BlockingSerial) returns (ok: bool)
      requires Valid() && t.Valid()
      modifies t
      ensures Valid() && t.Valid()
      ensures Handled(Op(OpDwInit), old(Abs()), old(t.Remaining()), old(t.Written()), t, ok)
    {
      hide Owed;
      OwedDwInit(Abs(), t.Remaining(), t.Written(), clock);
      var driver := t.ReadExact(1);
      if driver.None? {
        return false;
      }
      t.WriteAll([DWINIT_RESPONSE]);
      ok := true;
    }

    /** GETSTAT, SETSTAT and SERGETSTAT: two bytes read, no reply. */
    method HandleStat(t: BlockingSerial, ghost d: Decoded) returns (ok: bool)
      requires Valid() && t.Valid()
      requires d == Op(OpGetStat) || d == Op(OpSetStat) || d == Op(OpSerGetStat)
      modifies t
      ensures Valid() && t.Valid()
      ensures Handled(d, old(Abs()), old(t.Remaining()), old(t.Written()), t, ok)
    {
      hide Owed;
      OwedStat(d, Abs(), t.Remaining(), t.Written(), clock);
      var p := t.ReadExact(2);
      ok := p.Some?;
    }

    method HandlePrint(t: BlockingSerial) returns (ok: bool)
      requires Valid() && t.Valid()
      modifies t, this`printBuffer
      ensures Valid() && t.Valid()
      ensures Handled(Op(OpPrint), old(Abs()), old(t.Remaining()), old(t.Written()), t, ok)
    {
      hide Owed;
      OwedPrint(Abs(), t.Remaining(), t.Written(), clock);
      var b := t.ReadExact(1);
      if b.None? {
        return false;
      }
      printBuffer := printBuffer + [b.value[0]];
      ok := true;
    }

    method HandlePrintFlush(ghost t: BlockingSerial)
      requires Valid()
      modifies this`printBuffer
      ensures Valid()
      ensures Handled(Op(OpPrintFlush), old(Abs()), t.Remaining(), t.Written(), t, true)
    {
      hide Owed;
      OwedPrintFlush(Abs(), t.Remaining(), t.Written(), clock);
      if printBuffer == [] {
        return;
      }
      printBuffer := [];
    }

    method HandleFastWrite(t: BlockingSerial, channel: Byte) returns (ok: bool)
      requires Valid() && t.Valid()
      modifies t, this`inbox
      ensures Valid() && t.Valid()
      ensures Handled(Fast(channel), old(Abs()), old(t.Remaining()), old(t.Written()), t, ok)
    {
      hide Owed, Deposit;
      OwedFastWrite(channel, Abs(), t.Remaining(), t.Written(), clock);
      var b := t.ReadExact(1);
      if b.None? {
        return false;
      }
      PushVserial(channel, b.value[0]);
      ok := true;
    }

    method HandleSerInitTerm(t: BlockingSerial, value: bool) returns (ok: bool)
      requires Valid() && t.Valid()
      modifies t, this`open
      ensures Valid() && t.Valid()
      ensures Handled(Op(if value then OpSerInit else OpSerTerm),
                      old(Abs()), old(t.Remaining()), old(t.Written()), t, ok)
    {
      hide Owed, SetOpen;
      OwedSerInitTerm(value, Abs(), t.Remaining(), t.Written(), clock);
      var ch := t.ReadExact(1);
      if ch.None? {
        return false;
      }
      SetChannelOpen(ch.value[0], value);
      ok := true;
    }

    method HandleSerWrite(t: BlockingSerial) returns (ok: bool)
      requires Valid() && t.Valid()
      modifies t, this`inbox
      ensures Valid() && t.Valid()
      ensures Handled(Op(OpSerWrite), old(Abs()), old(t.Remaining()), old(t.Written()), t, ok)
    {
      hide Owed, Deposit;
      OwedSerWrite(Abs(), t.Remaining(), t.Written(), clock);
      var p := t.ReadExact(2);
      if p.None? {
        return false;
      }
      PushVserial(p.value[0], p.value[1]);
      ok := true;
    }

    /** The scan over the outboxes: the first non-empty one decides the reply. */
    method HandleSerRead(t: BlockingSerial)
      requires Valid() && t.Valid()
      modifies t, this`outbox
      ensures Valid() && t.Valid()
      ensures Handled(Op(OpSerRead), old(Abs()), old(t.Remaining()), old(t.Written()), t, true)
    {
      hide Owed;
      OwedSerRead(Abs(), t.Remaining(), t.Written(), clock);
      var idx := 0;
      while idx < CHANNELS
        invariant 0 <= idx <= CHANNELS
        invariant forall j :: 0 <= j < idx ==> outbox[j] == []
      {
        var q := outbox[idx];
        if q != [] {
          assert LowestReady(outbox) == idx;
          if |q| < 3 {
            outbox := outbox[idx := q[1..]];
            t.WriteAll([0x01 + idx, q[0]]);
            return;
          }
          var count := if |q| < 255 then |q| else 255;
          t.WriteAll([0x11 + idx, count]);
          return;
        }
        idx := idx + 1;
      }
      t.WriteAll([0x00, 0x00]);
    }

    /** Pops up to `count` bytes one at a time, zeros once the queue runs dry. */
    method PopFront(channel: Byte, count: Byte) returns (buf: seq<Byte>)
      requires Valid()
      modifies this`outbox
      ensures Valid() && Effect(Abs(), buf) == Fetch(old(Abs()), channel, count)
    {
      if channel >= CHANNELS {
        return Zeros(count);
      }
      buf := [];
      ghost var q := outbox[channel];
      for i := 0 to count
        invariant Valid() && |buf| == i
        invariant buf == q[..Min(i, |q|)] + Zeros(i - Min(i, |q|))
        invariant outbox == old(outbox)[channel := q[Min(i, |q|)..]]
      {
        if outbox[channel] != [] {
          buf := buf + [outbox[channel][0]];
          outbox := outbox[channel := outbox[channel][1..]];
        } else {
          buf := buf + [0];
        }
      }
    }

    method HandleSerReadM(t: BlockingSerial) returns (ok: bool)
      requires Valid() && t.Valid()
      modifies t, this`outbox
      ensures Valid() && t.Valid()
      ensures Handled(Op(OpSerReadM), old(Abs()), old(t.Remaining()), old(t.Written()), t, ok)
    {
      hide Owed, Fetch;
      OwedSerReadM(Abs(), t.Remaining(), t.Written(), clock);
      var p := t.ReadExact(2);
      if p.None? {
        return false;
      }
      var buf := PopFront(p.value[0], p.value[1]);
      t.WriteAll(buf);
      ok := true;
    }

    method HandleSerWriteM(t: BlockingSerial) returns (ok: bool)
      requires Valid() && t.Valid()
      modifies t, this`inbox
      ensures Valid() && t.Valid()
      ensures Handled(Op(OpSerWriteM), old(Abs()), old(t.Remaining()), old(t.Written()), t, ok)
    {
      hide Owed;
      ghost var input := t.Remaining();
      OwedSerWriteM(Abs(), input, t.Written(), clock);
      var hdr := t.ReadExact(2);
      if hdr.None? {
        return false;
      }
      var channel, count := hdr.value[0], hdr.value[1];
      var buf := t.ReadExact(count);
      if buf.None? {
        return false;
      }
      ghost var end: nat := 2 + (count as nat);
      assert buf.value == input[2..end] && t.Remaining() == input[end..];
      if channel < CHANNELS {
        inbox := inbox[channel := inbox[channel] + buf.value];
      }
      ok := true;
    }

    method HandleSerSetStat(t: BlockingSerial) returns (ok: bool)
      requires Valid() && t.Valid()
      modifies t, this`open
      ensures Valid() && t.Valid()
      ensures Handled(Op(OpSerSetStat), old(Abs()), old(t.Remaining()), old(t.Written()), t, ok)
    {
      hide Owed, SetOpen;
      ghost var input := t.Remaining();
      OwedSerSetStat(Abs(), input, t.Written(), clock);
      var hdr := t.ReadExact(2);
      if hdr.None? {
        return false;
      }
      var channel, code := hdr.value[0], hdr.value[1];
      ok := true;
      if code == SS_OPEN {
        SetChannelOpen(channel, true);
      } else if code == SS_CLOSE {
        SetChannelOpen(channel, false);
      } else if code == SS_COMST {
        var payload := t.ReadExact(COMST_PAYLOAD_LEN);
        ok := payload.Some?;
        assert ok ==> t.Remaining() == input[28..];
      }
    }

    method HandleTime(t: BlockingSerial)
      requires Valid() && t.Valid()
      modifies t, this`ticks
      ensures Valid() && t.Valid()
      ensures Handled(Op(OpTime), old(Abs()), old(t.Remaining()), old(t.Written()), t, true)
    {
      hide Owed;
      OwedTime(Abs(), t.Remaining(), t.Written(), clock);
      t.WriteAll(clock(ticks));
      ticks := ticks + 1;
    }

    // ---------------------------------------------------------- the loop

    /** One pass of the dispatch `match`. */
    method Dispatch(t: BlockingSerial, d: Decoded) returns (ok: bool)
      requires Valid() && t.Valid()
      modifies this`printBuffer, this`inbox, this`outbox, this`open, this`ticks, t, volume`files, drives.Values
      ensures Valid() && t.Valid()
      ensures Handled(d, old(Abs()), old(t.Remaining()), old(t.Written()), t, ok)
    {
      hide Owed;
      ok := true;
      match d
      case Fast(channel) => ok := HandleFastWrite(t, channel);
      case Junk(_) => OwedNothing(d, Abs(), t.Remaining(), t.Written(), clock);
      case Op(op) =>
        match op
        case OpRead | OpReread => ok := HandleRead(t, false, d);
        case OpReadEx | OpRereadEx => ok := HandleRead(t, true, d);
        case OpWrite | OpRewrite => ok := HandleWrite(t, d);
        case OpDwInit => ok := HandleDwInit(t);
        case OpTime => HandleTime(t);
        case OpGetStat | OpSetStat | OpSerGetStat => ok := HandleStat(t, d);
        case OpPrint => ok := HandlePrint(t);
        case OpPrintFlush => HandlePrintFlush(t);
        case OpSerRead => HandleSerRead(t);
        case OpSerReadM => ok := HandleSerReadM(t);
        case OpSerInit => ok := HandleSerInitTerm(t, true);
        case OpSerTerm => ok := HandleSerInitTerm(t, false);
        case OpSerWrite => ok := HandleSerWrite(t);
        case OpSerWriteM => ok := HandleSerWriteM(t);
        case OpSerSetStat => ok := HandleSerSetStat(t);
        case OpNop | OpInit | OpTerm | OpReset1 | OpReset2 | OpReset3 | OpWirebugMode =>
          OwedNothing(d, Abs(), t.Remaining(), t.Written(), clock);
    }

    /** The session loop. Whatever chunks the stream arrives in, its effect is that of the
        reference semantics on the flat stream, and it ends only when the stream does. */
    method Run(t: BlockingSerial) returns (end: End)
      requires Valid() && t.Valid()
      modifies this`printBuffer, this`inbox, this`outbox, this`open, this`ticks, t, volume`files, drives.Values
      ensures Valid() && t.Valid() && t.Remaining() == []
      ensures var r := Serve(old(Abs()), old(t.Remaining()), clock);
              Abs() == r.st && t.Written() == old(t.Written()) + r.out && end == r.end
    {
      hide Owed, Serve, FromByte, Accounts;
      ghost var whole := Serve(Abs(), t.Remaining(), clock);
      ghost var sent, out := t.Written(), [];
      AccountsInit(Abs(), t.Remaining(), clock);
      while true
        invariant Valid() && t.Valid()
        invariant t.Written() == sent + out
        invariant Accounts(whole, out, Abs(), t.Remaining(), clock)
        decreases |t.Remaining()|
      {
        ghost var st, input := Abs(), t.Remaining();
        var byte := t.ReadExact(1);
        if byte.None? {
          AccountsEnd(whole, out, st, clock);
          return Eof;
        }
        var ok := Dispatch(t, FromByte(byte.value[0]));
        out := AccountsTurn(whole, sent, out, st, input, clock, ok, Abs(), t.Written(), t.Remaining());
        if !ok {
          return Truncated;
        }
      }
    }
  }
}
