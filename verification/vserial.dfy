/** Virtual serial channels under concurrency: any number of guest sessions, host senders and
    host readers interleave at the granularity of the queue locks. */
module Vserial {
  import opened Proto
  import opened Wire
  import opened ServerSpec

  /** One byte that left an outbox, as the reply shows it. */
  datatype Pop = Pop(session: nat, channel: nat, data: Byte)

  /** Server state with the histories the laws below speak about. A session that has popped
      for SERREADM holds its reply outside the lock until it is written. */
  datatype World = World(
    st: State,
    held: map<nat, seq<Byte>>,       // session -> popped bytes not yet written
    delivered: map<nat, seq<Byte>>,  // session -> channel bytes handed to its transport
    sent: seq<seq<Byte>>,            // channel -> bytes queued by the host
    pops: seq<Pop>,                  // every byte popped, in lock order
    pushed: seq<seq<Byte>>,          // channel -> bytes deposited by guests
    drained: seq<seq<Byte>>)         // channel -> bytes taken by host readers

  datatype Step =
    | Command(session: nat, cmd: Command)                     // any command but SERREADM
    | FetchLocked(session: nat, channel: Byte, count: Byte)   // SERREADM, under the lock
    | FetchReply(session: nat)                                // SERREADM, writing the reply
    | Host(event: Event)

  predicate Enabled(w: World, step: Step) {
    match step
    case Command(s, c) => s !in w.held && !c.SerReadM?
    case FetchLocked(s, _, _) => s !in w.held
    case FetchReply(s) => s in w.held
    case Host(e) => !e.Guest?
  }

  predicate Shaped(w: World) {
    Valid(w.st) && |w.sent| == CHANNELS && |w.pushed| == CHANNELS && |w.drained| == CHANNELS
  }

  function At(m: map<nat, seq<Byte>>, s: nat): seq<Byte> {
    if s in m then m[s] else []
  }

  function AppendAt(logs: seq<seq<Byte>>, channel: Byte, bytes: seq<Byte>): (r: seq<seq<Byte>>)
    requires |logs| == CHANNELS
    ensures |r| == CHANNELS
  {
    if channel < CHANNELS then logs[channel := logs[channel] + bytes] else logs
  }

  /** Bytes a command asks the server to deposit. */
  function Deposits(c: Command): (Byte, seq<Byte>) {
    match c
    case SerWrite(ch, b) => (ch, [b])
    case FastWrite(ch, b) => (ch, [b])
    case SerWriteM(ch, bytes) => (ch, bytes)
    case _ => (0, [])
  }

  /** The channel byte carried by a SERREAD reply, if any. */
  function InlineOf(s: nat, out: seq<Byte>): seq<Pop> {
    if |out| == 2 && 0x01 <= out[0] <= 0x10 then [Pop(s, out[0] - 1, out[1])] else []
  }

  function PopsOf(s: nat, channel: nat, bytes: seq<Byte>): seq<Pop> {
    seq(|bytes|, i requires 0 <= i < |bytes| => Pop(s, channel, bytes[i]))
  }

  function Bytes(pops: seq<Pop>): seq<Byte> {
    seq(|pops|, i requires 0 <= i < |pops| => pops[i].data)
  }

  function Next(w: World, step: Step, clock: Clock): (r: World)
    requires Shaped(w) && Enabled(w, step)
    ensures Shaped(r)
  {
    match step
    case Command(s, c) =>
      var e := Exec(w.st, c, clock);
      var inline := if c == Plain(OpSerRead) then InlineOf(s, e.out) else [];
      var d := Deposits(c);
      w.(st := e.st, pops := w.pops + inline,
         delivered := w.delivered[s := At(w.delivered, s) + Bytes(inline)],
         pushed := AppendAt(w.pushed, d.0, d.1))
    case FetchLocked(s, ch, count) =>
      var e := Fetch(w.st, ch, count);
      var taken := if ch < CHANNELS then Min(count, |w.st.outbox[ch]|) else 0;
      w.(st := e.st, held := w.held[s := e.out[..taken]], pops := w.pops + PopsOf(s, ch, e.out[..taken]))
    case FetchReply(s) =>
      w.(held := w.held - {s}, delivered := w.delivered[s := At(w.delivered, s) + w.held[s]])
    case Host(event) =>
      var e := Apply(w.st, event, clock);
      match event
      case HostSend(ch, bytes) => w.(st := e.st, sent := AppendAt(w.sent, ch, bytes))
      case HostDrain(ch) => w.(st := e.st, drained := AppendAt(w.drained, ch, e.out))
      case _ => w.(st := e.st)
  }

  ghost predicate Runs(w: World, steps: seq<Step>, w': World, clock: Clock)
    decreases |steps|
  {
    if steps == [] then w' == w
    else Shaped(w) && Enabled(w, steps[0]) && Runs(Next(w, steps[0], clock), steps[1..], w', clock)
  }

  function OnChannel(pops: seq<Pop>, ch: nat): seq<Byte> {
    if pops == [] then []
    else
      var last := pops[|pops| - 1];
      OnChannel(pops[..|pops| - 1], ch) + (if last.channel == ch then [last.data] else [])
  }

  function BySession(pops: seq<Pop>, s: nat): seq<Byte> {
    if pops == [] then []
    else
      var last := pops[|pops| - 1];
      BySession(pops[..|pops| - 1], s) + (if last.session == s then [last.data] else [])
  }

  lemma {:induction false} LogPops(pops: seq<Pop>, s: nat, ch: nat, bytes: seq<Byte>, c: nat, t: nat)
    ensures OnChannel(pops + PopsOf(s, ch, bytes), c) == OnChannel(pops, c) + if c == ch then bytes else []
    ensures BySession(pops + PopsOf(s, ch, bytes), t) == BySession(pops, t) + if t == s then bytes else []
    decreases |bytes|
  {
    var all := pops + PopsOf(s, ch, bytes);
    if bytes == [] {
      assert all == pops;
    } else {
      var init := bytes[..|bytes| - 1];
      assert all[..|all| - 1] == pops + PopsOf(s, ch, init);
      LogPops(pops, s, ch, init, c, t);
      assert bytes == init + [bytes[|bytes| - 1]];
    }
  }

  /** Nothing is lost, duplicated or reordered: per channel, what the host sent is what was
      popped followed by what is queued, and what guests deposited is what the host drained
      followed by what waits; per session, what it popped is what reached its transport
      followed by what it still holds. */
  ghost predicate Conserved(w: World) {
    && Shaped(w)
    && (forall ch :: 0 <= ch < CHANNELS ==>
          && w.sent[ch] == OnChannel(w.pops, ch) + w.st.outbox[ch]
          && w.pushed[ch] == w.drained[ch] + w.st.inbox[ch])
    && (forall s: nat :: BySession(w.pops, s) == At(w.delivered, s) + At(w.held, s))
  }

  /** A command other than the two reads leaves every outbox alone and appends its own bytes
      to its own inbox. */
  lemma ExecQueues(st: State, c: Command, clock: Clock)
    requires Valid(st) && !c.SerReadM?
    ensures var e := Exec(st, c, clock);
            e.st.inbox == AppendAt(st.inbox, Deposits(c).0, Deposits(c).1)
            && (c != Plain(OpSerRead) ==> e.st.outbox == st.outbox)
            && (c == Plain(OpSerRead) ==> e == Poll(st))
  {
    hide Checksum16, ReadSector, WriteSector;
    assert forall ch :: 0 <= ch < CHANNELS ==> st.inbox[ch] + [] == st.inbox[ch];
    assert st.inbox[0 := st.inbox[0]] == st.inbox;
    if c.Write? { WriteKeepsQueues(st, c); }
  }

  lemma WriteKeepsQueues(st: State, c: Command)
    requires Valid(st) && c.Write?
    ensures var e := WriteSector(st, c.slot, c.lsn, c.sector, c.guestSum);
            e.st.inbox == st.inbox && e.st.outbox == st.outbox
  {
  }

  /** The bytes a poll shows are the bytes it took, from the front of one channel. */
  lemma PollTakes(st: State, s: nat)
    requires Valid(st)
    ensures var e := Poll(st);
            var inline := InlineOf(s, e.out);
            |inline| <= 1 && e.st.inbox == st.inbox
            && (inline == [] ==> e.st.outbox == st.outbox)
            && (inline != [] ==>
                  var ch := inline[0].channel;
                  inline[0].session == s && ch < CHANNELS && 1 <= |st.outbox[ch]| <= 2
                  && inline == PopsOf(s, ch, st.outbox[ch][..1])
                  && e.st.outbox == st.outbox[ch := st.outbox[ch][1..]])
  {
  }

  lemma BytesOfPops(s: nat, ch: nat, bytes: seq<Byte>)
    ensures Bytes(PopsOf(s, ch, bytes)) == bytes
  {
  }

  lemma TakeKeepsChannel(sent: seq<Byte>, log: seq<Byte>, q: seq<Byte>, n: nat)
    requires sent == log + q && n <= |q|
    ensures sent == (log + q[..n]) + q[n..]
  {
  }

  /** Taking n bytes from the front of a channel and logging them keeps the channel laws. */
  lemma PopConserves(w: World, s: nat, ch: nat, n: nat, c: nat)
    requires Conserved(w) && ch < CHANNELS && n <= |w.st.outbox[ch]| && c < CHANNELS
    ensures var bytes := w.st.outbox[ch][..n];
            w.sent[c] == OnChannel(w.pops + PopsOf(s, ch, bytes), c) + w.st.outbox[ch := w.st.outbox[ch][n..]][c]
  {
    var bytes := w.st.outbox[ch][..n];
    LogPops(w.pops, s, ch, bytes, c, 0);
    TakeKeepsChannel(w.sent[ch], OnChannel(w.pops, ch), w.st.outbox[ch], n);
    assert OnChannel(w.pops, c) + [] == OnChannel(w.pops, c);
  }

  /** A pop of the front n bytes that is delivered at once. */
  lemma DeliveredPopConserves(w: World, r: World, s: nat, ch: nat, n: nat)
    requires Conserved(w) && s !in w.held && ch < CHANNELS && n <= |w.st.outbox[ch]| && Shaped(r)
    requires var bytes := w.st.outbox[ch][..n];
             r.pops == w.pops + PopsOf(s, ch, bytes) && r.delivered == w.delivered[s := At(w.delivered, s) + bytes]
    requires r.sent == w.sent && r.pushed == w.pushed && r.drained == w.drained && r.held == w.held
    requires r.st.inbox == w.st.inbox && r.st.outbox == w.st.outbox[ch := w.st.outbox[ch][n..]]
    ensures Conserved(r)
  {
    hide OnChannel, BySession;
    var bytes := w.st.outbox[ch][..n];
    forall k | 0 <= k < CHANNELS ensures r.sent[k] == OnChannel(r.pops, k) + r.st.outbox[k] {
      PopConserves(w, s, ch, n, k);
    }
    forall t: nat ensures BySession(r.pops, t) == At(r.delivered, t) + At(r.held, t) {
      LogPops(w.pops, s, ch, bytes, 0, t);
      assert At(w.delivered, t) + At(w.held, t) + [] == At(w.delivered, t) + At(w.held, t);
      assert At(w.delivered, s) + [] == At(w.delivered, s);
      assert At(r.delivered, s) + [] == At(r.delivered, s);
    }
  }

  lemma PollConserves(w: World, s: nat, clock: Clock)
    requires Conserved(w) && s !in w.held
    ensures Conserved(Next(w, Command(s, Plain(OpSerRead)), clock))
  {
    hide Exec, Poll, OnChannel, BySession;
    var c := Plain(OpSerRead);
    ExecQueues(w.st, c, clock);
    PollTakes(w.st, s);
    var inline := InlineOf(s, Poll(w.st).out);
    var r := Next(w, Command(s, c), clock);
    assert w.pushed[0] + [] == w.pushed[0] && w.pushed[0 := w.pushed[0]] == w.pushed;
    if inline == [] {
      assert w.pops + [] == w.pops && Bytes([]) == [];
      assert At(w.delivered, s) + [] == At(w.delivered, s);
    } else {
      var ch := inline[0].channel;
      BytesOfPops(s, ch, w.st.outbox[ch][..1]);
      DeliveredPopConserves(w, r, s, ch, 1);
    }
  }

  lemma OtherCommandConserves(w: World, s: nat, c: Command, clock: Clock)
    requires Conserved(w) && s !in w.held && !c.SerReadM? && c != Plain(OpSerRead)
    ensures Conserved(Next(w, Command(s, c), clock))
  {
    hide Exec, OnChannel, BySession, Deposits;
    ExecQueues(w.st, c, clock);
    var d := Deposits(c);
    assert w.pops + [] == w.pops && Bytes([]) == [];
    assert At(w.delivered, s) + [] == At(w.delivered, s);
    if d.0 < CHANNELS {
      assert (w.drained[d.0] + w.st.inbox[d.0]) + d.1 == w.drained[d.0] + (w.st.inbox[d.0] + d.1);
    }
  }

  lemma FetchTakes(st: State, ch: Byte, count: Byte)
    requires Valid(st)
    ensures var e := Fetch(st, ch, count);
            var taken := if ch < CHANNELS then Min(count, |st.outbox[ch]|) else 0;
            e.st.inbox == st.inbox && |e.out| == count && taken <= count
            && (forall i :: taken <= i < count ==> e.out[i] == 0)
            && (ch >= CHANNELS ==> e.st == st)
            && (ch < CHANNELS ==> e.out[..taken] == st.outbox[ch][..taken]
                                  && e.st.outbox == st.outbox[ch := st.outbox[ch][taken..]])
  {
  }

  lemma FetchConserves(w: World, s: nat, ch: Byte, count: Byte, clock: Clock)
    requires Conserved(w) && s !in w.held
    ensures Conserved(Next(w, FetchLocked(s, ch, count), clock))
  {
    hide Fetch, OnChannel, BySession;
    FetchTakes(w.st, ch, count);
    var e := Fetch(w.st, ch, count);
    var r := Next(w, FetchLocked(s, ch, count), clock);
    var taken := if ch < CHANNELS then Min(count, |w.st.outbox[ch]|) else 0;
    var bytes := e.out[..taken];
    forall k | 0 <= k < CHANNELS ensures r.sent[k] == OnChannel(r.pops, k) + r.st.outbox[k] {
      if ch < CHANNELS { PopConserves(w, s, ch, taken, k); } else { assert r.pops == w.pops; }
    }
    forall t: nat ensures BySession(r.pops, t) == At(r.delivered, t) + At(r.held, t) {
      LogPops(w.pops, s, ch, bytes, 0, t);
      assert At(w.delivered, s) + [] == At(w.delivered, s);
      assert At(w.delivered, t) + At(w.held, t) + [] == At(w.delivered, t) + At(w.held, t);
    }
  }

  lemma ReplyConserves(w: World, s: nat, clock: Clock)
    requires Conserved(w) && s in w.held
    ensures Conserved(Next(w, FetchReply(s), clock))
  {
  }

  lemma HostConserves(w: World, event: Event, clock: Clock)
    requires Conserved(w) && !event.Guest?
    ensures Conserved(Next(w, Host(event), clock))
  {
    hide OnChannel, BySession, SectorCount;
    match event
    case HostSend(ch, bytes) =>
      if ch < CHANNELS {
        assert (OnChannel(w.pops, ch) + w.st.outbox[ch]) + bytes == OnChannel(w.pops, ch) + (w.st.outbox[ch] + bytes);
      }
    case HostDrain(ch) =>
      if ch < CHANNELS {
        assert (w.drained[ch] + w.st.inbox[ch]) + [] == w.drained[ch] + w.st.inbox[ch];
      }
    case _ =>
  }

  lemma StepConserves(w: World, step: Step, clock: Clock)
    requires Conserved(w) && Enabled(w, step)
    ensures Conserved(Next(w, step, clock))
  {
    hide Conserved, Next;
    match step
    case Command(s, c) =>
      if c == Plain(OpSerRead) { PollConserves(w, s, clock); } else { OtherCommandConserves(w, s, c, clock); }
    case FetchLocked(s, ch, count) => FetchConserves(w, s, ch, count, clock);
    case FetchReply(s) => ReplyConserves(w, s, clock);
    case Host(event) => HostConserves(w, event, clock);
  }

  /** The history-free start: whatever is already queued counts as sent or deposited. */
  function Fresh(st: State): World
    requires Valid(st)
  {
    World(st, map[], map[], st.outbox, [], st.inbox, seq(CHANNELS, _ => []))
  }

  /** Conservation holds after every interleaving. */
  lemma {:induction false} EveryRunConserves(w: World, steps: seq<Step>, w': World, clock: Clock)
    requires Conserved(w) && Runs(w, steps, w', clock)
    ensures Conserved(w')
    decreases |steps|
  {
    hide Conserved, Next;
    if steps != [] {
      StepConserves(w, steps[0], clock);
      EveryRunConserves(Next(w, steps[0], clock), steps[1..], w', clock);
    }
  }

  lemma FreshConserved(st: State)
    requires Valid(st)
    ensures Conserved(Fresh(st))
  {
  }

  // ----------------------------------------------------- announcements

  /** Once three or more bytes wait on a channel, only SERREADM for that channel can take any. */
  lemma LongQueueOnlyGrows(w: World, step: Step, ch: nat, clock: Clock)
    requires Shaped(w) && Enabled(w, step) && ch < CHANNELS && |w.st.outbox[ch]| >= 3
    requires !(step.FetchLocked? && step.channel == ch)
    ensures w.st.outbox[ch] <= Next(w, step, clock).st.outbox[ch]
  {
    hide Exec, Poll, Fetch, SectorCount;
    match step
    case Command(s, c) =>
      ExecQueues(w.st, c, clock);
      PollTakes(w.st, s);
    case FetchLocked(s, k, count) => FetchTakes(w.st, k, count);
    case FetchReply(_) =>
    case Host(_) =>
  }

  lemma {:induction false} PromiseKept(w: World, steps: seq<Step>, w': World, ch: nat, clock: Clock)
    requires Shaped(w) && Runs(w, steps, w', clock) && ch < CHANNELS && |w.st.outbox[ch]| >= 3
    requires forall i :: 0 <= i < |steps| ==> !(steps[i].FetchLocked? && steps[i].channel == ch)
    ensures Shaped(w') && w.st.outbox[ch] <= w'.st.outbox[ch]
    decreases |steps|
  {
    if steps != [] {
      hide Next;
      LongQueueOnlyGrows(w, steps[0], ch, clock);
      PromiseKept(Next(w, steps[0], clock), steps[1..], w', ch, clock);
    }
  }

  lemma AnnouncementMeans(st: State, ch: nat, count: Byte)
    requires Valid(st) && ch < CHANNELS && Poll(st).out == [0x11 + ch, count]
    ensures |st.outbox[ch]| >= 3 && count == Min(|st.outbox[ch]|, 255)
  {
  }

  /** The announcement is a promise: if SERREAD announces `count` bytes on a channel, then
      after any interleaving in which no SERREADM names that channel (other sessions may
      poll and hosts may send), SERREADM for `count` gets exactly the bytes that were at the
      front, and no padding. */
  lemma AnnouncedBytesArrive(w: World, steps: seq<Step>, w': World, ch: nat, count: Byte, clock: Clock)
    requires Shaped(w) && Runs(w, steps, w', clock) && ch < CHANNELS
    requires Poll(w.st).out == [0x11 + ch, count]
    requires forall i :: 0 <= i < |steps| ==> !(steps[i].FetchLocked? && steps[i].channel == ch)
    ensures Shaped(w') && 3 <= count <= |w.st.outbox[ch]| && Fetch(w'.st, ch, count).out == w.st.outbox[ch][..count]
  {
    hide Poll, Fetch, Next, Runs;
    AnnouncementMeans(w.st, ch, count);
    PromiseKept(w, steps, w', ch, clock);
    FetchTakes(w'.st, ch, count);
    var out := Fetch(w'.st, ch, count).out;
    assert out[..count] == out;
  }
}
