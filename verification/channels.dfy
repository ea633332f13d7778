/** Which channels are open after any history. */
module Channels {
  import opened Proto
  import opened Wire
  import opened ServerSpec
  import opened Storage

  /** What a command says about channel ch: open it, close it, or nothing. */
  function Says(c: Command, ch: Byte): Option<bool> {
    match c
    case SerInit(n) => if n == ch then Some(true) else None
    case SerTerm(n) => if n == ch then Some(false) else None
    case SerSetStat(n, code, _) =>
      if n != ch then None
      else if code == 0x29 then Some(true)
      else if code == 0x2A then Some(false)
      else None
    case _ => None
  }

  /** The last word on channel ch in a history, or else how it started. */
  function LastWord(es: seq<Event>, ch: Byte, initial: bool): bool {
    if es == [] then initial
    else
      var e := es[|es| - 1];
      if e.Guest? && Says(e.cmd, ch).Some? then Says(e.cmd, ch).value
      else LastWord(es[..|es| - 1], ch, initial)
  }

  lemma ExecOpens(st: State, c: Command, ch: Byte, clock: Clock)
    requires Valid(st) && ch < 16
    ensures var e := Exec(st, c, clock).st;
            |e.open| == 16 && e.open[ch] == if Says(c, ch).Some? then Says(c, ch).value else st.open[ch]
  {
    hide Checksum16, Fetch, WriteSector, ExecPlain, ReadSector;
    match c
    case Write(_, slot, lsn, sector, guestSum) => WriteKeepsOpen(st, slot, lsn, sector, guestSum);
    case Plain(op) => PlainKeepsOpen(st, op, clock);
    case SerReadM(channel, count) => FetchKeepsOpen(st, channel, count);
    case _ =>
  }

  lemma WriteKeepsOpen(st: State, slot: Byte, lsn: Lsn, sector: Sector, guestSum: U16)
    requires Valid(st)
    ensures WriteSector(st, slot, lsn, sector, guestSum).st.open == st.open
  {
    hide Checksum16;
  }

  lemma PlainKeepsOpen(st: State, op: Opcode, clock: Clock)
    requires Valid(st)
    ensures ExecPlain(st, op, clock).st.open == st.open
  {
  }

  lemma FetchKeepsOpen(st: State, channel: Byte, count: Byte)
    requires Valid(st)
    ensures Fetch(st, channel, count).st.open == st.open
  {
  }

  lemma ApplyOpens(st: State, e: Event, ch: Byte, clock: Clock)
    requires Valid(st) && ch < 16
    ensures var r := Apply(st, e, clock).st;
            |r.open| == 16
            && r.open[ch] == if e.Guest? && Says(e.cmd, ch).Some? then Says(e.cmd, ch).value else st.open[ch]
  {
    hide Exec, Opened, Relinked;
    if e.Guest? { ExecOpens(st, e.cmd, ch, clock); }
  }

  /** After every history each channel is as the last SERINIT, SERTERM or opening or closing
      SERSETSTAT that named it left it. Commands that name a channel above 15 name none. */
  lemma {:induction false} OpenIsLastWord(st: State, es: seq<Event>, ch: Byte, clock: Clock)
    requires Valid(st) && ch < 16
    ensures var r := Replay(st, es, clock); |r.open| == 16 && r.open[ch] == LastWord(es, ch, st.open[ch])
    decreases |es|
  {
    if es != [] {
      hide Apply;
      OpenIsLastWord(st, es[..|es| - 1], ch, clock);
      ApplyOpens(Replay(st, es[..|es| - 1], clock), es[|es| - 1], ch, clock);
    }
  }
}
