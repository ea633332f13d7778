/** Wire primitives of the DriveWire protocol: bytes, opcodes, the 24-bit sector
    number and the 16-bit additive checksum. */
module Proto {

  type Byte = b: int | 0 <= b < 256

  type U16 = n: int | 0 <= n < 0x1_0000

  type U32 = n: int | 0 <= n < 0x1_0000_0000

  type Lsn = n: int | 0 <= n < 0x100_0000

  const SECTOR_SIZE: nat := 256

  type Sector = s: seq<Byte> | |s| == SECTOR_SIZE witness seq(SECTOR_SIZE, _ => 0)

  datatype Option<+T> = None | Some(value: T)

  /** Status bytes sent back to the guest (0 is success). */
  const OK: Byte := 0x00
  const E_CRC: Byte := 0xF3
  const E_WRITE: Byte := 0xF5
  const E_NOT_READY: Byte := 0xF6

  datatype Opcode =
    | OpNop | OpTime | OpPrintFlush | OpGetStat | OpInit | OpPrint | OpRead | OpSetStat | OpTerm | OpWrite
    | OpReread | OpRewrite | OpReadEx | OpRereadEx | OpReset2 | OpReset1
    | OpWirebugMode | OpSerRead | OpSerGetStat | OpSerInit | OpDwInit | OpSerReadM | OpSerWriteM
    | OpSerWrite | OpSerSetStat | OpSerTerm | OpReset3

  /** The byte that announces each opcode on the wire. */
  function OpcodeByte(op: Opcode): Byte {
    match op
    case OpNop => 0x00
    case OpTime => 0x23
    case OpPrintFlush => 0x46
    case OpGetStat => 0x47
    case OpInit => 0x49
    case OpPrint => 0x50
    case OpRead => 0x52
    case OpSetStat => 0x53
    case OpTerm => 0x54
    case OpWrite => 0x57
    case OpReread => 0x72
    case OpRewrite => 0x77
    case OpReadEx => 0xD2
    case OpRereadEx => 0xF2
    case OpReset2 => 0xFE
    case OpReset1 => 0xFF
    case OpWirebugMode => 0x42
    case OpSerRead => 0x43
    case OpSerGetStat => 0x44
    case OpSerInit => 0x45
    case OpDwInit => 0x5A
    case OpSerReadM => 0x63
    case OpSerWriteM => 0x64
    case OpSerWrite => 0xC3
    case OpSerSetStat => 0xC4
    case OpSerTerm => 0xC5
    case OpReset3 => 0xF8
  }

  function OpcodeOf(b: Byte): Option<Opcode> {
    match b
    case 0x00 => Some(OpNop)
    case 0x23 => Some(OpTime)
    case 0x42 => Some(OpWirebugMode)
    case 0x43 => Some(OpSerRead)
    case 0x44 => Some(OpSerGetStat)
    case 0x45 => Some(OpSerInit)
    case 0x46 => Some(OpPrintFlush)
    case 0x47 => Some(OpGetStat)
    case 0x49 => Some(OpInit)
    case 0x50 => Some(OpPrint)
    case 0x52 => Some(OpRead)
    case 0x53 => Some(OpSetStat)
    case 0x54 => Some(OpTerm)
    case 0x57 => Some(OpWrite)
    case 0x5A => Some(OpDwInit)
    case 0x63 => Some(OpSerReadM)
    case 0x64 => Some(OpSerWriteM)
    case 0x72 => Some(OpReread)
    case 0x77 => Some(OpRewrite)
    case 0xC3 => Some(OpSerWrite)
    case 0xC4 => Some(OpSerSetStat)
    case 0xC5 => Some(OpSerTerm)
    case 0xD2 => Some(OpReadEx)
    case 0xF2 => Some(OpRereadEx)
    case 0xF8 => Some(OpReset3)
    case 0xFE => Some(OpReset2)
    case 0xFF => Some(OpReset1)
    case _ => None
  }

  /** One decoded opcode byte; 0x80..0x8F carry the channel in the byte itself. */
  datatype Decoded = Op(op: Opcode) | Fast(channel: Byte) | Junk(b: Byte)

  function FromByte(b: Byte): Decoded {
    if 0x80 <= b <= 0x8F then Fast(b - 0x80)
    else match OpcodeOf(b)
      case Some(op) => Op(op)
      case None => Junk(b)
  }

  function ToByte(d: Decoded): Byte
    requires d.Fast? ==> d.channel < 16
  {
    match d
    case Op(op) => OpcodeByte(op)
    case Fast(channel) => 0x80 + channel
    case Junk(b) => b
  }

  /** Decoding loses nothing: every byte is the encoding of what it decodes to, and
      every opcode and every fast-write channel is recovered from its own byte. */
  lemma DecodeIsBijective(b: Byte, op: Opcode, channel: Byte)
    requires channel < 16
    ensures var d := FromByte(b); (d.Fast? ==> d.channel < 16) && ToByte(d) == b
    ensures FromByte(OpcodeByte(op)) == Op(op)
    ensures FromByte(0x80 + channel) == Fast(channel)
  {
  }

  function Be16(hi: Byte, lo: Byte): U16 { hi * 256 + lo }

  function ToBe16(n: U16): (bs: seq<Byte>)
    ensures |bs| == 2 && Be16(bs[0], bs[1]) == n
  {
    [n / 256, n % 256]
  }

  function FromBe3(b0: Byte, b1: Byte, b2: Byte): Lsn { b0 * 65536 + b1 * 256 + b2 }

  /** The low three bytes, big-endian; the top byte of a 32-bit value is dropped. */
  function ToBe3(n: U32): (bs: seq<Byte>)
    ensures |bs| == 3 && FromBe3(bs[0], bs[1], bs[2]) == n % 0x100_0000
  {
    var low := n % 0x100_0000;
    var q := low / 256;
    [q / 256, q % 256, low % 256]
  }

  lemma DivModUnique(n: int, q: int, r: int)
    requires n == q * 256 + r && 0 <= r < 256
    ensures n / 256 == q && n % 256 == r
  {
  }

  lemma Be3Digits(b0: Byte, b1: Byte, b2: Byte)
    ensures ToBe3(FromBe3(b0, b1, b2)) == [b0, b1, b2]
  {
    var m, q := FromBe3(b0, b1, b2), b0 * 256 + b1;
    assert m % 0x100_0000 == m;
    DivModUnique(m, q, b2);
    DivModUnique(q, b0, b1);
  }

  /** The three-byte field is a bijection on 24-bit numbers, and only on those. */
  lemma LsnRoundTrip(n: U32, b0: Byte, b1: Byte, b2: Byte)
    ensures var bs := ToBe3(n); FromBe3(bs[0], bs[1], bs[2]) == n <==> n < 0x100_0000
    ensures ToBe3(FromBe3(b0, b1, b2)) == [b0, b1, b2]
  {
    hide ToBe3, FromBe3;
    Be3Digits(b0, b1, b2);
  }

  /** What the field means: it counts sectors, the last byte fastest, with carries to the left. */
  lemma LsnCounts(b0: int, b1: int, b2: int)
    requires 0 <= b0 < 256 && 0 <= b1 < 256 && 0 <= b2 < 256
    ensures b2 < 255 ==> FromBe3(b0, b1, b2 + 1) - FromBe3(b0, b1, b2) == 1
    ensures b1 < 255 ==> FromBe3(b0, b1 + 1, 0) - FromBe3(b0, b1, 255) == 1
    ensures b0 < 255 ==> FromBe3(b0 + 1, 0, 0) - FromBe3(b0, 255, 255) == 1
  {
  }

  lemma FieldsStartAtZero()
    ensures FromBe3(0, 0, 0) == 0 && Be16(0, 0) == 0
  {
  }

  /** So does a 16-bit word. */
  lemma WordCounts(hi: int, lo: int)
    requires 0 <= hi < 256 && 0 <= lo < 256
    ensures lo < 255 ==> Be16(hi, lo + 1) - Be16(hi, lo) == 1
    ensures hi < 255 ==> Be16(hi + 1, 0) - Be16(hi, 255) == 1
  {
  }

  lemma WordRoundTrip(hi: Byte, lo: Byte)
    ensures ToBe16(Be16(hi, lo)) == [hi, lo]
  {
  }

  /** Left fold with 16-bit wrap-around addition. */
  function Checksum16(data: seq<Byte>): U16 {
    if data == [] then 0
    else (Checksum16(data[..|data| - 1]) + data[|data| - 1]) % 0x1_0000
  }

  function Sum(data: seq<Byte>): nat {
    if data == [] then 0 else data[0] + Sum(data[1..])
  }

  lemma {:induction false} SumAppend(a: seq<Byte>, b: seq<Byte>)
    ensures Sum(a + b) == Sum(a) + Sum(b)
  {
    if a == [] {
      assert a + b == b;
    } else {
      assert (a + b)[1..] == a[1..] + b;
      SumAppend(a[1..], b);
    }
  }

  lemma {:induction false} SumBounded(data: seq<Byte>)
    ensures Sum(data) <= 255 * |data|
  {
    if data != [] { SumBounded(data[1..]); }
  }

  lemma WrapAdd(x: nat, b: Byte)
    ensures (x % 0x1_0000 + b) % 0x1_0000 == (x + b) % 0x1_0000
  {
  }

  lemma {:induction false} ChecksumIsSum(data: seq<Byte>)
    ensures Checksum16(data) == Sum(data) % 0x1_0000
  {
    if data != [] {
      var init, last := data[..|data| - 1], data[|data| - 1];
      ChecksumIsSum(init);
      WrapAdd(Sum(init), last);
      assert data == init + [last];
      SumAppend(init, [last]);
      assert Sum([last]) == last;
    }
  }

  /** A sector's checksum is its exact byte sum: it never wraps. */
  lemma SectorChecksumExact(s: Sector)
    ensures Checksum16(s) == Sum(s) <= 65280
  {
    ChecksumIsSum(s);
    SumBounded(s);
  }

  predicate Dominates(a: seq<Byte>, b: seq<Byte>) {
    |a| == |b| && forall i :: 0 <= i < |a| ==> a[i] >= b[i]
  }

  lemma {:induction false} SumMonotone(a: seq<Byte>, b: seq<Byte>)
    requires Dominates(a, b)
    ensures Sum(a) >= Sum(b)
    ensures a != b ==> Sum(a) > Sum(b)
  {
    if a != [] {
      SumMonotone(a[1..], b[1..]);
      assert a == [a[0]] + a[1..] && b == [b[0]] + b[1..];
    }
  }

  /** Corruption that only raises bytes, or only lowers them (in particular any change
      confined to one byte), always changes a sector's checksum. */
  lemma OneSidedCorruptionDetected(sent: Sector, got: Sector)
    requires sent != got
    requires Dominates(sent, got) || Dominates(got, sent)
    ensures Checksum16(sent) != Checksum16(got)
  {
    SectorChecksumExact(sent);
    SectorChecksumExact(got);
    if Dominates(sent, got) { SumMonotone(sent, got); } else { SumMonotone(got, sent); }
  }

  lemma SingleByteIsOneSided(sent: Sector, i: nat, b: Byte)
    requires i < SECTOR_SIZE
    ensures Dominates(sent, sent[i := b]) || Dominates(sent[i := b], sent)
  {
  }
}
