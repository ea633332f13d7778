/** The synthetic echo guest as the peer of the SERREAD / SERREADM / FASTWRITE protocol. */
module EchoGuest {
  import opened Proto
  import opened Wire
  import opened ServerSpec
  import opened Stream
  import opened Transport
  import opened ServerLoop

  /** How the guest reads the two-byte reply to SERREAD. */
  datatype View =
    | Idle
    | Inline(channel: Byte, data: Byte)
    | Closing(channel: Byte)
    | Announce(channel: Byte, count: Byte)
    | Unhandled(code: Byte)

  function Decode(code: Byte, arg: Byte): View {
    if code == 0x00 then Idle
    else if code <= 0x0F then Inline(code - 0x01, arg)
    else if code == 0x10 then Closing(arg)
    else if code <= 0x1F then Announce(code - 0x11, arg)
    else Unhandled(code)
  }

  /** What the guest learns from a poll, in terms of the server's queues alone. The last
      channel's codes run into the closing code and past the announcement range. */
  lemma PollDecodes(st: State)
    requires Valid(st)
    ensures var out := Poll(st).out;
            |out| == 2 &&
            match Decode(out[0], out[1])
            case Idle => forall ch :: 0 <= ch < CHANNELS ==> st.outbox[ch] == []
            case Inline(ch, b) =>
              ch < 15 && 1 <= |st.outbox[ch]| <= 2 && b == st.outbox[ch][0]
              && (forall j :: 0 <= j < ch ==> st.outbox[j] == [])
            case Announce(ch, n) =>
              ch < 15 && |st.outbox[ch]| >= 3 && n == Min(|st.outbox[ch]|, 255)
              && (forall j :: 0 <= j < ch ==> st.outbox[j] == [])
            case Closing(b) =>
              1 <= |st.outbox[15]| <= 2 && b == st.outbox[15][0]
              && (forall j :: 0 <= j < 15 ==> st.outbox[j] == [])
            case Unhandled(_) =>
              |st.outbox[15]| >= 3 && (forall j :: 0 <= j < 15 ==> st.outbox[j] == [])
  {
  }

  function EchoFrame(channel: Byte, bytes: seq<Byte>): seq<Byte>
    requires channel < 16
  {
    if bytes == [] then [] else [0x80 + channel, bytes[0]] + EchoFrame(channel, bytes[1..])
  }

  method EchoBack(channel: Byte, bytes: seq<Byte>) returns (frame: seq<Byte>)
    requires channel < 16
    ensures frame == EchoFrame(channel, bytes)
  {
    frame := [];
    var i := 0;
    while i < |bytes|
      invariant 0 <= i <= |bytes|
      invariant frame + EchoFrame(channel, bytes[i..]) == EchoFrame(channel, bytes)
    {
      assert bytes[i..][1..] == bytes[i + 1..];
      Assoc(frame, [0x80 + channel, bytes[i]], EchoFrame(channel, bytes[i + 1..]));
      frame := frame + [0x80 + channel, bytes[i]];
      i := i + 1;
    }
  }

  /** One turn of the guest's loop against the server: the bytes it writes and what the
      server makes of them. */
  function Turn(st: State, clock: Clock): (r: (State, View))
    requires Valid(st)
    ensures Valid(r.0)
  {
    var poll := Serve(st, [0x43], clock);
    PollServed(st, clock);
    PollDecodes(st);
    var view := Decode(poll.out[0], poll.out[1]);
    match view
    case Inline(ch, b) => (Serve(poll.st, EchoFrame(ch, [b]), clock).st, view)
    case Announce(ch, n) =>
      var burst := Serve(poll.st, [0x63, ch, n], clock);
      (Serve(burst.st, EchoFrame(ch, burst.out), clock).st, view)
    case _ => (poll.st, view)
  }

  lemma PollServed(st: State, clock: Clock)
    requires Valid(st)
    ensures var e := Poll(st); Serve(st, [0x43], clock) == Outcome(e.st, e.out, Eof)
  {
    OneCommandServed(st, Plain(OpSerRead), clock);
    assert Encode(Plain(OpSerRead)) == [0x43];
  }

  lemma FetchServed(st: State, ch: Byte, n: Byte, clock: Clock)
    requires Valid(st)
    ensures var e := Fetch(st, ch, n); Serve(st, [0x63, ch, n], clock) == Outcome(e.st, e.out, Eof)
  {
    OneCommandServed(st, SerReadM(ch, n), clock);
    assert Encode(SerReadM(ch, n)) == [0x63, ch, n];
  }

  lemma OneCommandServed(st: State, c: Command, clock: Clock)
    requires Valid(st) && WellFormed(c)
    ensures var e := Exec(st, c, clock); Serve(st, Encode(c), clock) == Outcome(e.st, e.out, Eof)
  {
    hide Encode, Exec, Serve;
    ServeRunsCommands(st, [c], clock);
    var e := Exec(st, c, clock);
    assert [c][1..] == [];
    assert EncodeAll([c]) == Encode(c) + EncodeAll([]) == Encode(c);
    assert ExecAll(e.st, [], clock) == Effect(e.st, []);
    assert e.out + [] == e.out;
  }

  /** The echoed frame deposits exactly the bytes, in order, on the same channel. */
  lemma {:induction false} EchoServed(st: State, ch: Byte, bytes: seq<Byte>, clock: Clock)
    requires Valid(st) && ch < 16
    ensures Serve(st, EchoFrame(ch, bytes), clock) == Outcome(Deposit(st, ch, bytes), [], Eof)
    decreases |bytes|
  {
    hide Encode, Serve, Exec;
    if bytes == [] {
      ServeRunsCommands(st, [], clock);
      assert st.inbox[ch] + [] == st.inbox[ch];
    } else {
      var c := FastWrite(ch, bytes[0]);
      assert Encode(c) == [0x80 + ch, bytes[0]] by { EncodeFast(ch, bytes[0]); }
      OneCommandServed(st, c, clock);
      var mid := Deposit(st, ch, [bytes[0]]);
      assert Exec(st, c, clock) == Effect(mid, []) by { ExecFast(st, ch, bytes[0], clock); }
      EchoServed(mid, ch, bytes[1..], clock);
      ServeSequence(st, Encode(c), EchoFrame(ch, bytes[1..]), clock);
      assert st.inbox[ch] + [bytes[0]] + bytes[1..] == st.inbox[ch] + bytes;
    }
  }

  lemma EncodeFast(ch: Byte, b: Byte)
    requires ch < 16
    ensures Encode(FastWrite(ch, b)) == [0x80 + ch, b]
  {
  }

  lemma ExecFast(st: State, ch: Byte, b: Byte, clock: Clock)
    requires Valid(st)
    ensures Exec(st, FastWrite(ch, b), clock) == Effect(Deposit(st, ch, [b]), [])
  {
  }

  /** Moves the first n bytes of a channel's outbox to its inbox. */
  function Move(st: State, ch: Byte, n: nat): State
    requires Valid(st) && ch < CHANNELS && n <= |st.outbox[ch]|
  {
    st.(outbox := st.outbox[ch := st.outbox[ch][n..]],
        inbox := st.inbox[ch := st.inbox[ch] + st.outbox[ch][..n]])
  }

  /** A turn in closed form: the lowest waiting channel below 15 has its next one byte or
      its next burst echoed; channel 15 loses a byte, or is stuck. */
  lemma TurnEffect(st: State, clock: Clock)
    requires Valid(st)
    ensures var (st', view) := Turn(st, clock);
            var i := LowestReady(st.outbox);
            if i == CHANNELS then view == Idle && st' == st
            else
              var q := st.outbox[i];
              view != Idle &&
              st' == if i == 15
                     then (if |q| < 3 then st.(outbox := st.outbox[15 := q[1..]]) else st)
                     else Move(st, i, if |q| < 3 then 1 else Min(|q|, 255))
  {
    hide Serve;
    PollServed(st, clock);
    PollDecodes(st);
    var poll := Poll(st);
    var i := LowestReady(st.outbox);
    match Decode(poll.out[0], poll.out[1])
    case Inline(ch, b) =>
      EchoServed(poll.st, ch, [b], clock);
      assert st.outbox[i][..1] == [b];
    case Announce(ch, n) =>
      FetchServed(st, ch, n, clock);
      var burst := Fetch(st, ch, n);
      assert burst.out == st.outbox[i][..n];
      EchoServed(burst.st, ch, burst.out, clock);
    case _ =>
  }

  // ------------------------------------------------------- whole runs

  /** Non-idle polls needed to empty a queue of length n. */
  function Polls(n: nat): nat {
    n / 255 + (if n % 255 < 3 then n % 255 else 1)
  }

  lemma PollsStep(n: nat)
    requires n > 0
    ensures Polls(n) == 1 + Polls(n - (if n < 3 then 1 else Min(n, 255)))
  {
  }

  function Total(queues: seq<seq<Byte>>): nat {
    if queues == [] then 0 else |queues[0]| + Total(queues[1..])
  }

  lemma {:induction false} TotalUpdate(queues: seq<seq<Byte>>, i: nat, q: seq<Byte>)
    requires i < |queues|
    ensures Total(queues[i := q]) == Total(queues) - |queues[i]| + |q|
  {
    if i > 0 {
      assert queues[i := q][1..] == queues[1..][i - 1 := q];
      TotalUpdate(queues[1..], i - 1, q);
    }
  }

  /** How a state reached by turns relates to the state `st0` they started from. */
  ghost predicate Reached(st0: State, st: State, polls: seq<nat>) {
    && Valid(st0) && Valid(st) && |polls| == CHANNELS
    && (forall ch :: 0 <= ch < 15 ==>
          && st.inbox[ch] + st.outbox[ch] == st0.inbox[ch] + st0.outbox[ch]
          && polls[ch] + Polls(|st.outbox[ch]|) == Polls(|st0.outbox[ch]|))
    && st.inbox[15] == st0.inbox[15]
    && |st.outbox[15]| <= |st0.outbox[15]|
    && polls[15] + |st.outbox[15]| == |st0.outbox[15]|
    && st.(inbox := st0.inbox, outbox := st0.outbox) == st0
  }

  lemma ReachedStart(st: State)
    requires Valid(st)
    ensures Reached(st, st, seq(CHANNELS, _ => 0))
  {
  }

  lemma ReachedTurn(st0: State, st: State, polls: seq<nat>, clock: Clock)
    requires Reached(st0, st, polls) && |st0.outbox[15]| < 3
    requires LowestReady(st.outbox) < CHANNELS
    ensures var i := LowestReady(st.outbox);
            var st' := Turn(st, clock).0;
            Reached(st0, st', polls[i := polls[i] + 1]) && Total(st'.outbox) < Total(st.outbox)
  {
    hide Turn, Polls;
    TurnEffect(st, clock);
    var i := LowestReady(st.outbox);
    var q := st.outbox[i];
    var n := if i == 15 || |q| < 3 then 1 else Min(|q|, 255);
    TotalUpdate(st.outbox, i, q[n..]);
    PollsStep(|q|);
    if i < 15 {
      assert (st.inbox[i] + q[..n]) + q[n..] == st.inbox[i] + q;
    }
  }

  lemma AllEmpty(st0: State, st: State, polls: seq<nat>)
    requires Reached(st0, st, polls) && LowestReady(st.outbox) == CHANNELS
    ensures EchoComplete(st0, st, polls)
  {
  }

  /** The echo result: every outbox drained, every byte of channels 0 to 14 now at the end
      of the same channel's inbox in order, after exactly the expected number of polls. */
  ghost predicate EchoComplete(st0: State, st: State, polls: seq<nat>) {
    && Valid(st0) && Valid(st) && |polls| == CHANNELS
    && (forall ch :: 0 <= ch < CHANNELS ==> st.outbox[ch] == [])
    && (forall ch :: 0 <= ch < 15 ==>
          st.inbox[ch] == st0.inbox[ch] + st0.outbox[ch] && polls[ch] == Polls(|st0.outbox[ch]|))
    && st.inbox[15] == st0.inbox[15] && polls[15] == |st0.outbox[15]|
    && st.(inbox := st0.inbox, outbox := st0.outbox) == st0
  }

  /** One request and everything the server sends in answer to it. */
  method Exchange(server: Server, request: seq<Byte>) returns (reply: seq<Byte>)
    requires server.Valid()
    modifies server`printBuffer, server`inbox, server`outbox, server`open, server`ticks,
             server.volume`files, server.drives.Values
    ensures server.Valid()
    ensures var r := Serve(old(server.Abs()), request, server.clock);
            server.Abs() == r.st && reply == r.out
  {
    hide Serve;
    var chunks := if request == [] then [] else [request];
    assert Flatten(chunks) == request by {
      if request != [] { assert Flatten([request]) == request + Flatten([]) == request; }
    }
    ghost var r := Serve(server.Abs(), request, server.clock);
    var t := new BlockingSerial(chunks);
    var end := server.Run(t);
    assert [] + r.out == r.out;
    reply := Flatten(t.tx);
  }

  /** One pass of the guest's loop body, over the wire. */
  method GuestPass(server: Server) returns (view: View)
    requires server.Valid()
    modifies server`printBuffer, server`inbox, server`outbox, server`open, server`ticks,
             server.volume`files, server.drives.Values
    ensures server.Valid() && (server.Abs(), view) == Turn(old(server.Abs()), server.clock)
  {
    hide Serve, Poll;
    ghost var st := server.Abs();
    PollServed(st, server.clock);
    PollDecodes(st);
    var resp := Exchange(server, [0x43]);
    view := Decode(resp[0], resp[1]);
    match view {
      case Inline(channel, data) =>
        var frame := EchoBack(channel, [data]);
        var none := Exchange(server, frame);
      case Announce(channel, count) =>
        var buf := Exchange(server, [0x63, channel, count]);
        var frame := EchoBack(channel, buf);
        var none := Exchange(server, frame);
      case _ =>
    }
  }

  lemma ViewNamesChannel(st: State, clock: Clock)
    requires Valid(st)
    ensures var view := Turn(st, clock).1;
            view != Idle ==> LowestReady(st.outbox) == ViewChannel(view)
  {
    PollServed(st, clock);
    PollDecodes(st);
  }

  function ViewChannel(view: View): nat {
    match view
    case Inline(ch, _) => ch
    case Announce(ch, _) => ch
    case _ => 15
  }

  /** The guest loop, run until the first idle reply with no new host traffic. It gets
      there whenever channel 15 holds fewer than three bytes. */
  method EchoUntilIdle(server: Server) returns (polls: seq<nat>)
    requires server.Valid() && |server.outbox[15]| < 3
    modifies server`printBuffer, server`inbox, server`outbox, server`open, server`ticks,
             server.volume`files, server.drives.Values
    ensures server.Valid() && EchoComplete(old(server.Abs()), server.Abs(), polls)
  {
    hide Turn, EchoComplete, Polls;
    ghost var st0 := server.Abs();
    polls := seq(CHANNELS, _ => 0);
    ReachedStart(st0);
    while true
      invariant server.Valid() && Reached(st0, server.Abs(), polls)
      decreases Total(server.outbox)
    {
      ghost var st := server.Abs();
      TurnEffect(st, server.clock);
      ViewNamesChannel(st, server.clock);
      var view := GuestPass(server);
      if view == Idle {
        AllEmpty(st0, st, polls);
        return;
      }
      ReachedTurn(st0, st, polls, server.clock);
      var ch := ViewChannel(view);
      polls := polls[ch := polls[ch] + 1];
    }
  }

  // -------------------------------------------- when the loop terminates

  function Turns(st: State, k: nat, clock: Clock): State
    requires Valid(st)
    decreases k
  {
    if k == 0 then st else Turns(Turn(st, clock).0, k - 1, clock)
  }

  ghost predicate IdleAfter(st: State, k: nat, clock: Clock)
    requires Valid(st)
  {
    Valid(Turns(st, k, clock)) && Turn(Turns(st, k, clock), clock).1 == Idle
  }

  lemma {:induction false} StuckForever(st: State, k: nat, clock: Clock)
    requires Valid(st) && |st.outbox[15]| >= 3
    ensures !IdleAfter(st, k, clock)
    decreases k
  {
    hide Turn;
    TurnEffect(st, clock);
    if k > 0 {
      StuckForever(Turn(st, clock).0, k - 1, clock);
    }
  }

  lemma {:induction false} EventuallyIdle(st0: State, st: State, polls: seq<nat>, clock: Clock) returns (k: nat)
    requires Reached(st0, st, polls) && |st0.outbox[15]| < 3
    ensures IdleAfter(st, k, clock)
    decreases Total(st.outbox)
  {
    hide Turn, Polls;
    TurnEffect(st, clock);
    var i := LowestReady(st.outbox);
    if i == CHANNELS {
      k := 0;
    } else {
      ReachedTurn(st0, st, polls, clock);
      var n := EventuallyIdle(st0, Turn(st, clock).0, polls[i := polls[i] + 1], clock);
      k := n + 1;
    }
  }

  /** Exactly when the guest ever goes idle: channel 15 must not hold three or more bytes,
      because its announcement is a code the guest does not recognise. */
  lemma IdleIffChannel15Short(st: State, clock: Clock)
    requires Valid(st)
    ensures (exists k: nat :: IdleAfter(st, k, clock)) <==> |st.outbox[15]| < 3
  {
    hide Turn, Reached, IdleAfter;
    if |st.outbox[15]| < 3 {
      ReachedStart(st);
      var k := EventuallyIdle(st, st, seq(CHANNELS, _ => 0), clock);
    } else {
      forall k: nat ensures !IdleAfter(st, k, clock) { StuckForever(st, k, clock); }
    }
  }

  /** ... and every channel is echoed in full exactly when channel 15 was empty. */
  lemma EchoTotalIffChannel15Empty(st0: State, st: State, polls: seq<nat>)
    requires EchoComplete(st0, st, polls)
    ensures (forall ch :: 0 <= ch < CHANNELS ==> st.inbox[ch] == st0.inbox[ch] + st0.outbox[ch])
            <==> st0.outbox[15] == []
  {
  }
}
