/** The unframed command language: what a guest may send, how it is encoded, and how a
    byte stream falls apart into commands. */
module Wire {
  import opened Proto

  const SS_COMST: Byte := 0x28
  const SS_OPEN: Byte := 0x29
  const SS_CLOSE: Byte := 0x2A
  const COMST_PAYLOAD_LEN: nat := 26

  datatype Command =
    | Plain(op: Opcode)                                   // no payload
    | DwInit(driver: Byte)
    | Stat(setting: bool, drive: Byte, code: Byte)            // GETSTAT / SETSTAT
    | Print(data: Byte)
    | Read(retry: bool, slot: Byte, lsn: Lsn)
    | ReadEx(retry: bool, slot: Byte, lsn: Lsn, guestSum: U16)
    | Write(retry: bool, slot: Byte, lsn: Lsn, sector: Sector, guestSum: U16)
    | SerReadM(channel: Byte, count: Byte)
    | SerInit(channel: Byte)
    | SerTerm(channel: Byte)
    | SerWrite(channel: Byte, data: Byte)
    | SerWriteM(channel: Byte, bytes: seq<Byte>)          // count-dependent payload
    | SerSetStat(channel: Byte, code: Byte, status: seq<Byte>) // code-dependent payload
    | SerGetStat(channel: Byte, code: Byte)
    | FastWrite(channel: Byte, data: Byte)
    | Unknown(b: Byte)

  predicate HasNoPayload(op: Opcode) {
    match op
    case OpNop | OpTime | OpPrintFlush | OpInit | OpTerm | OpWirebugMode | OpSerRead
       | OpReset1 | OpReset2 | OpReset3 => true
    case _ => false
  }

  predicate WellFormed(c: Command) {
    match c
    case Plain(op) => HasNoPayload(op)
    case SerWriteM(_, bytes) => |bytes| < 256
    case SerSetStat(_, code, status) => |status| == StatusLen(code)
    case FastWrite(channel, _) => channel < 16
    case Unknown(b) => FromByte(b) == Junk(b)
    case _ => true
  }

  function DecodedOf(c: Command): Decoded {
    match c
    case Plain(op) => Op(op)
    case DwInit(_) => Op(OpDwInit)
    case Stat(setting, _, _) => Op(if setting then OpSetStat else OpGetStat)
    case Print(_) => Op(OpPrint)
    case Read(retry, _, _) => Op(if retry then OpReread else OpRead)
    case ReadEx(retry, _, _, _) => Op(if retry then OpRereadEx else OpReadEx)
    case Write(retry, _, _, _, _) => Op(if retry then OpRewrite else OpWrite)
    case SerReadM(_, _) => Op(OpSerReadM)
    case SerInit(_) => Op(OpSerInit)
    case SerTerm(_) => Op(OpSerTerm)
    case SerWrite(_, _) => Op(OpSerWrite)
    case SerWriteM(_, _) => Op(OpSerWriteM)
    case SerSetStat(_, _, _) => Op(OpSerSetStat)
    case SerGetStat(_, _) => Op(OpSerGetStat)
    case FastWrite(channel, _) => Fast(channel)
    case Unknown(b) => Junk(b)
  }

  function PayloadOf(c: Command): seq<Byte>
    requires WellFormed(c)
  {
    match c
    case Plain(_) => []
    case DwInit(driver) => [driver]
    case Stat(_, drive, code) => [drive, code]
    case Print(data) => [data]
    case Read(_, slot, lsn) => [slot] + ToBe3(lsn)
    case ReadEx(_, slot, lsn, sum) => [slot] + ToBe3(lsn) + ToBe16(sum)
    case Write(_, slot, lsn, sector, sum) => [slot] + ToBe3(lsn) + sector + ToBe16(sum)
    case SerReadM(channel, count) => [channel, count]
    case SerInit(channel) => [channel]
    case SerTerm(channel) => [channel]
    case SerWrite(channel, data) => [channel, data]
    case SerWriteM(channel, bytes) => [channel, |bytes|] + bytes
    case SerSetStat(channel, code, status) => [channel, code] + status
    case SerGetStat(channel, code) => [channel, code]
    case FastWrite(_, data) => [data]
    case Unknown(_) => []
  }

  function Encode(c: Command): seq<Byte>
    requires WellFormed(c)
  {
    [ToByte(DecodedOf(c))] + PayloadOf(c)
  }

  datatype Parsed = Incomplete | Complete(cmd: Command, used: nat)

  function LsnAt(p: seq<Byte>): Lsn
    requires |p| >= 4
  {
    FromBe3(p[1], p[2], p[3])
  }

  /** What the dispatch arm for `d` makes of the bytes that follow the opcode byte. */
  function ParsePayload(d: Decoded, p: seq<Byte>): (r: Parsed)
    ensures r.Complete? ==> r.used <= |p|
  {
    match d
    case Junk(b) => Complete(Unknown(b), 0)
    case Fast(channel) => if |p| < 1 then Incomplete else Complete(FastWrite(channel, p[0]), 1)
    case Op(op) =>
      match op
      case OpNop | OpTime | OpPrintFlush | OpInit | OpTerm | OpWirebugMode | OpSerRead
         | OpReset1 | OpReset2 | OpReset3 => Complete(Plain(op), 0)
      case OpRead => ParseRead(false, p)
      case OpReread => ParseRead(true, p)
      case OpReadEx => ParseReadEx(false, p)
      case OpRereadEx => ParseReadEx(true, p)
      case OpWrite => ParseWrite(false, p)
      case OpRewrite => ParseWrite(true, p)
      case OpSerWriteM => ParseSerWriteM(p)
      case OpSerSetStat => ParseSerSetStat(p)
      case OpDwInit => if |p| < 1 then Incomplete else Complete(DwInit(p[0]), 1)
      case OpPrint => if |p| < 1 then Incomplete else Complete(Print(p[0]), 1)
      case OpSerInit => if |p| < 1 then Incomplete else Complete(SerInit(p[0]), 1)
      case OpSerTerm => if |p| < 1 then Incomplete else Complete(SerTerm(p[0]), 1)
      case OpGetStat => if |p| < 2 then Incomplete else Complete(Stat(false, p[0], p[1]), 2)
      case OpSetStat => if |p| < 2 then Incomplete else Complete(Stat(true, p[0], p[1]), 2)
      case OpSerReadM => if |p| < 2 then Incomplete else Complete(SerReadM(p[0], p[1]), 2)
      case OpSerWrite => if |p| < 2 then Incomplete else Complete(SerWrite(p[0], p[1]), 2)
      case OpSerGetStat => if |p| < 2 then Incomplete else Complete(SerGetStat(p[0], p[1]), 2)
  }

  function ParseRead(retry: bool, p: seq<Byte>): Parsed {
    if |p| < 4 then Incomplete else Complete(Read(retry, p[0], LsnAt(p)), 4)
  }

  function ParseReadEx(retry: bool, p: seq<Byte>): Parsed {
    if |p| < 6 then Incomplete else Complete(ReadEx(retry, p[0], LsnAt(p), Be16(p[4], p[5])), 6)
  }

  function ParseWrite(retry: bool, p: seq<Byte>): Parsed {
    if |p| < 262 then Incomplete
    else Complete(Write(retry, p[0], LsnAt(p), p[4..260], Be16(p[260], p[261])), 262)
  }

  function ParseSerWriteM(p: seq<Byte>): Parsed {
    if |p| < 2 then Incomplete
    else
      var end: nat := 2 + (p[1] as nat);
      if |p| < end then Incomplete else Complete(SerWriteM(p[0], p[2..end]), end)
  }

  /** Bytes that follow the [channel, code] header of SERSETSTAT. */
  function StatusLen(code: Byte): nat {
    if code == SS_COMST then COMST_PAYLOAD_LEN else 0
  }

  function ParseSerSetStat(p: seq<Byte>): Parsed {
    if |p| < 2 then Incomplete
    else
      var end := 2 + StatusLen(p[1]);
      if |p| < end then Incomplete else Complete(SerSetStat(p[0], p[1], p[2..end]), end)
  }

  /** The first command of a stream, and how many bytes it takes up. */
  function ParseOne(s: seq<Byte>): (r: Parsed)
    ensures r.Complete? ==> 0 < r.used <= |s|
  {
    if s == [] then Incomplete
    else match ParsePayload(FromByte(s[0]), s[1..])
      case Incomplete => Incomplete
      case Complete(c, n) => Complete(c, n + 1)
  }

  lemma DiskPayloadInverts(c: Command, rest: seq<Byte>)
    requires c.Read? || c.ReadEx? || c.Write?
    ensures ParsePayload(DecodedOf(c), PayloadOf(c) + rest) == Complete(c, |PayloadOf(c)|)
  {
    hide ToBe3, FromBe3, ToBe16, Be16;
    var p := PayloadOf(c) + rest;
    assert [p[1], p[2], p[3]] == ToBe3(c.lsn);
    match c
    case Read(_, _, _) =>
    case ReadEx(_, _, _, sum) => assert [p[4], p[5]] == ToBe16(sum);
    case Write(_, _, _, sector, sum) =>
      assert p[4..260] == sector;
      assert [p[260], p[261]] == ToBe16(sum);
  }

  lemma PayloadInverts(c: Command, rest: seq<Byte>)
    requires WellFormed(c)
    ensures ParsePayload(DecodedOf(c), PayloadOf(c) + rest) == Complete(c, |PayloadOf(c)|)
  {
    hide ToBe3, FromBe3, ToBe16, Be16;
    var p := PayloadOf(c) + rest;
    match c
    case Read(_, _, _) => DiskPayloadInverts(c, rest);
    case ReadEx(_, _, _, _) => DiskPayloadInverts(c, rest);
    case Write(_, _, _, _, _) => DiskPayloadInverts(c, rest);
    case SerWriteM(_, bytes) => assert p[2..2 + |bytes|] == bytes;
    case SerSetStat(_, _, status) => assert p[2..2 + |status|] == status;
    case _ =>
  }

  /** Reading back a command's own encoding yields it, whatever bytes follow. */
  lemma ParseInvertsEncode(c: Command, rest: seq<Byte>)
    requires WellFormed(c)
    ensures ParseOne(Encode(c) + rest) == Complete(c, |Encode(c)|)
  {
    hide ParsePayload, PayloadOf;
    var s := Encode(c) + rest;
    var d := DecodedOf(c);
    assert FromByte(ToByte(d)) == d by {
      match d
      case Op(op) => DecodeIsBijective(0, op, 0);
      case Fast(ch) => DecodeIsBijective(0, OpNop, ch);
      case Junk(_) =>
    }
    assert s[1..] == PayloadOf(c) + rest;
    PayloadInverts(c, rest);
  }

  /** A parse result agrees with the opcode and with the very bytes it consumed. */
  predicate Faithful(d: Decoded, p: seq<Byte>, r: Parsed) {
    r.Complete? ==>
      r.used <= |p| && WellFormed(r.cmd) && DecodedOf(r.cmd) == d && p[..r.used] == PayloadOf(r.cmd)
  }

  lemma ParseReadsFaithful(retry: bool, p: seq<Byte>)
    ensures Faithful(Op(if retry then OpReread else OpRead), p, ParseRead(retry, p))
    ensures Faithful(Op(if retry then OpRereadEx else OpReadEx), p, ParseReadEx(retry, p))
  {
    hide ToBe3, FromBe3, ToBe16, Be16;
    if |p| >= 4 { LsnRoundTrip(0, p[1], p[2], p[3]); }
    if |p| >= 6 { WordRoundTrip(p[4], p[5]); }
  }

  lemma ParseWriteFaithful(retry: bool, p: seq<Byte>)
    ensures Faithful(Op(if retry then OpRewrite else OpWrite), p, ParseWrite(retry, p))
  {
    hide ToBe3, FromBe3, ToBe16, Be16;
    if |p| >= 262 {
      LsnRoundTrip(0, p[1], p[2], p[3]);
      WordRoundTrip(p[260], p[261]);
    }
  }

  lemma ParseSerialFaithful(p: seq<Byte>)
    ensures Faithful(Op(OpSerWriteM), p, ParseSerWriteM(p))
    ensures Faithful(Op(OpSerSetStat), p, ParseSerSetStat(p))
  {
  }

  lemma ParsePayloadSound(d: Decoded, p: seq<Byte>)
    requires d.Junk? ==> FromByte(d.b) == d
    requires d.Fast? ==> d.channel < 16
    ensures Faithful(d, p, ParsePayload(d, p))
  {
    if d.Op? {
      match d.op
      case OpRead | OpReadEx => ParseReadsFaithful(false, p);
      case OpReread | OpRereadEx => ParseReadsFaithful(true, p);
      case OpWrite => ParseWriteFaithful(false, p);
      case OpRewrite => ParseWriteFaithful(true, p);
      case OpSerWriteM | OpSerSetStat => ParseSerialFaithful(p);
      case _ =>
    }
  }

  /** Whatever is parsed is well formed, and the bytes used are exactly its encoding. */
  lemma ParseSound(s: seq<Byte>)
    ensures var r := ParseOne(s);
            r.Complete? ==> WellFormed(r.cmd) && s[..r.used] == Encode(r.cmd)
  {
    var r := ParseOne(s);
    if r.Complete? {
      DecodeIsBijective(s[0], OpNop, 0);
      ParsePayloadSound(FromByte(s[0]), s[1..]);
      assert s[..r.used] == [s[0]] + s[1..][..r.used - 1];
    }
  }

  predicate AllWellFormed(cs: seq<Command>) {
    forall i :: 0 <= i < |cs| ==> WellFormed(cs[i])
  }

  function EncodeAll(cs: seq<Command>): seq<Byte>
    requires AllWellFormed(cs)
  {
    if cs == [] then [] else Encode(cs[0]) + EncodeAll(cs[1..])
  }

  datatype Session = Session(cmds: seq<Command>, tail: seq<Byte>)

  /** The complete commands of a stream, and the truncated bytes left over. */
  function Split(s: seq<Byte>): Session
    decreases |s|
  {
    match ParseOne(s)
    case Incomplete => Session([], s)
    case Complete(c, n) =>
      var r := Split(s[n..]);
      Session([c] + r.cmds, r.tail)
  }

  lemma EncodeAllCons(c: Command, cs: seq<Command>, tail: seq<Byte>)
    requires WellFormed(c) && AllWellFormed(cs)
    ensures AllWellFormed([c] + cs)
    ensures EncodeAll([c] + cs) + tail == Encode(c) + (EncodeAll(cs) + tail)
  {
  }

  lemma SplitStep(s: seq<Byte>)
    ensures var r := ParseOne(s);
            Split(s) == if r.Incomplete? then Session([], s)
                        else Session([r.cmd] + Split(s[r.used..]).cmds, Split(s[r.used..]).tail)
  {
  }

  /** Every stream is the encoding of well-formed commands followed by a tail that holds
      no complete command. */
  lemma {:induction false} SplitSound(s: seq<Byte>)
    ensures var r := Split(s);
            AllWellFormed(r.cmds) && EncodeAll(r.cmds) + r.tail == s && ParseOne(r.tail) == Incomplete
    decreases |s|
  {
    hide ParseOne, Encode;
    SplitStep(s);
    var r := ParseOne(s);
    if r.Complete? {
      ParseSound(s);
      SplitSound(s[r.used..]);
      var q := Split(s[r.used..]);
      EncodeAllCons(r.cmd, q.cmds, q.tail);
      assert s == s[..r.used] + s[r.used..];
    }
  }

  /** ... and in only one way: the decomposition of any such concatenation is itself. */
  lemma {:induction false} SplitUnique(cs: seq<Command>, tail: seq<Byte>)
    requires AllWellFormed(cs) && ParseOne(tail) == Incomplete
    ensures Split(EncodeAll(cs) + tail) == Session(cs, tail)
  {
    if cs == [] {
      assert EncodeAll(cs) + tail == tail;
    } else {
      var rest := EncodeAll(cs[1..]) + tail;
      assert cs == [cs[0]] + cs[1..];
      EncodeAllCons(cs[0], cs[1..], tail);
      SplitUnique(cs[1..], tail);
      SplitOfEncoded(cs[0], rest);
    }
  }

  lemma SplitOfEncoded(c: Command, rest: seq<Byte>)
    requires WellFormed(c)
    ensures Split(Encode(c) + rest) == Session([c] + Split(rest).cmds, Split(rest).tail)
  {
    ParseInvertsEncode(c, rest);
    assert (Encode(c) + rest)[|Encode(c)|..] == rest;
    SplitStep(Encode(c) + rest);
  }

  /** A longer stream parses its first command the same way. */
  lemma ParseExtends(a: seq<Byte>, b: seq<Byte>)
    requires ParseOne(a).Complete?
    ensures ParseOne(a + b) == ParseOne(a)
  {
    hide ParseOne, Encode;
    var r := ParseOne(a);
    ParseSound(a);
    assert a + b == Encode(r.cmd) + (a[r.used..] + b);
    ParseInvertsEncode(r.cmd, a[r.used..] + b);
  }

  /** Splitting a + b: the commands already complete in a, then a's tail continued by b. */
  lemma {:induction false} SplitAppend(a: seq<Byte>, b: seq<Byte>)
    ensures var r := Split(a);
            var q := Split(r.tail + b);
            Split(a + b) == Session(r.cmds + q.cmds, q.tail)
    decreases |a|
  {
    hide ParseOne;
    SplitStep(a);
    match ParseOne(a)
    case Incomplete =>
      var q := Split(a + b);
      assert [] + q.cmds == q.cmds;
    case Complete(c, n) =>
      ParseExtends(a, b);
      SplitStep(a + b);
      assert (a + b)[n..] == a[n..] + b;
      SplitAppend(a[n..], b);
      var r := Split(a[n..]);
      var q := Split(r.tail + b);
      assert [c] + (r.cmds + q.cmds) == ([c] + r.cmds) + q.cmds;
  }
}
