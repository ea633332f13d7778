/** Waking the attached readers of one channel: guest deposits, the channel's Notify cell and
    any number of outbound attach tasks, interleaved one atomic action at a time. */
module Wakeup {
  import opened Proto

  /** How a byte reached the inbox: one at a time with a notification to follow (SERWRITE,
      FASTWRITE), or in bulk with none (SERWRITEM). */
  datatype Origin = Notified | Silent

  datatype Item = Item(data: Byte, origin: Origin)

  /** Program points of an outbound attach task; while it writes it holds what it drained. */
  datatype Reader = Draining | Writing(batch: seq<Byte>) | Waiting | Blocked | Gone

  datatype Channel = Channel(
    inbox: seq<Item>,
    permit: bool,        // a stored notification
    pending: nat,        // depositors between appending and notifying
    readers: seq<Reader>)

  datatype Step =
    | Append(data: Byte)               // push: first half, under the inbox lock
    | Notify(woken: nat)               // push: second half
    | Bulk(bytes: seq<Byte>)           // SERWRITEM
    | Attach                           // a new outbound task
    | Drain(reader: nat)
    | Deliver(reader: nat, sent: nat)  // the socket write, which fails if it sends less than it holds
    | Await(reader: nat)

  predicate AnyBlocked(c: Channel) { Blocked in c.readers }

  predicate Is(c: Channel, r: nat, at: Reader) { r < |c.readers| && c.readers[r] == at }

  predicate Enabled(c: Channel, step: Step) {
    match step
    case Append(_) => true
    case Bulk(_) => true
    case Attach => true
    case Notify(woken) => c.pending > 0 && (AnyBlocked(c) ==> Is(c, woken, Blocked))
    case Drain(r) => Is(c, r, Draining)
    case Deliver(r, sent) => r < |c.readers| && c.readers[r].Writing? && sent <= |c.readers[r].batch|
    case Await(r) => Is(c, r, Waiting)
  }

  function Silently(bytes: seq<Byte>): seq<Item> {
    seq(|bytes|, i requires 0 <= i < |bytes| => Item(bytes[i], Silent))
  }

  function Data(inbox: seq<Item>): (r: seq<Byte>)
    ensures |r| == |inbox|
  {
    seq(|inbox|, i requires 0 <= i < |inbox| => inbox[i].data)
  }

  /** A task whose write fails ends. */
  function AfterWrite(r: Reader, sent: nat): Reader
    requires r.Writing?
  {
    if sent == |r.batch| then Draining else Gone
  }

  function Next(c: Channel, step: Step): Channel
    requires Enabled(c, step)
  {
    match step
    case Append(b) => c.(inbox := c.inbox + [Item(b, Notified)], pending := c.pending + 1)
    case Bulk(bytes) => c.(inbox := c.inbox + Silently(bytes))
    case Attach => c.(readers := c.readers + [Draining])
    case Notify(woken) =>
      if AnyBlocked(c) then c.(pending := c.pending - 1, readers := c.readers[woken := Draining])
      else c.(pending := c.pending - 1, permit := true)
    case Drain(r) =>
      if c.inbox == [] then c.(readers := c.readers[r := Waiting])
      else c.(inbox := [], readers := c.readers[r := Writing(Data(c.inbox))])
    case Deliver(r, sent) => c.(readers := c.readers[r := AfterWrite(c.readers[r], sent)])
    case Await(r) =>
      if c.permit then c.(permit := false, readers := c.readers[r := Draining])
      else c.(readers := c.readers[r := Blocked])
  }

  ghost predicate Runs(c: Channel, steps: seq<Step>, c': Channel)
    decreases |steps|
  {
    if steps == [] then c' == c
    else Enabled(c, steps[0]) && Runs(Next(c, steps[0]), steps[1..], c')
  }

  const START := Channel([], false, 0, [])

  predicate SomeNotified(inbox: seq<Item>) {
    exists i :: 0 <= i < |inbox| && inbox[i].origin == Notified
  }

  function SilentPart(inbox: seq<Item>): seq<Byte> {
    if inbox == [] then []
    else
      var last := inbox[|inbox| - 1];
      SilentPart(inbox[..|inbox| - 1]) + (if last.origin == Silent then [last.data] else [])
  }

  /** No wakeup is ever lost: a notified byte still in the inbox means somebody is about to
      notify, a permit is stored, or a reader is on its way to drain; and a stored permit
      means nobody is asleep. */
  ghost predicate Awake(c: Channel) {
    && (SomeNotified(c.inbox) ==> c.permit || c.pending > 0 || Draining in c.readers)
    && (c.permit ==> !AnyBlocked(c))
  }

  lemma StepKeepsAwake(c: Channel, step: Step)
    requires Awake(c) && Enabled(c, step)
    ensures Awake(Next(c, step))
  {
    var r := Next(c, step);
    match step
    case Append(_) =>
    case Bulk(bytes) =>
      if SomeNotified(r.inbox) {
        var i :| 0 <= i < |r.inbox| && r.inbox[i].origin == Notified;
        assert i < |c.inbox| && c.inbox[i].origin == Notified;
      }
    case Attach => assert r.readers[|c.readers|] == Draining;
    case Notify(woken) => if AnyBlocked(c) { assert r.readers[woken] == Draining; }
    case Drain(d) =>
    case Deliver(d, sent) => KeepsDraining(c.readers, d, AfterWrite(c.readers[d], sent));
    case Await(d) =>
      if c.permit { assert r.readers[d] == Draining; } else { KeepsDraining(c.readers, d, Blocked); }
  }

  lemma KeepsDraining(readers: seq<Reader>, r: nat, to: Reader)
    requires r < |readers| && readers[r] != Draining
    ensures Draining in readers ==> Draining in readers[r := to]
  {
    if Draining in readers {
      var i :| 0 <= i < |readers| && readers[i] == Draining;
      assert readers[r := to][i] == Draining;
    }
  }

  /** Bytes of bulk deposits since the last drain, from the steps alone. */
  function SilentSince(steps: seq<Step>, carry: seq<Byte>): seq<Byte>
    decreases |steps|
  {
    if steps == [] then carry
    else match steps[0]
      case Bulk(bytes) => SilentSince(steps[1..], carry + bytes)
      case Drain(_) => SilentSince(steps[1..], [])
      case _ => SilentSince(steps[1..], carry)
  }

  lemma {:induction false} SilentPartAppend(inbox: seq<Item>, bytes: seq<Byte>)
    ensures SilentPart(inbox + Silently(bytes)) == SilentPart(inbox) + bytes
    decreases |bytes|
  {
    var all := inbox + Silently(bytes);
    if bytes == [] {
      assert all == inbox;
    } else {
      var init := bytes[..|bytes| - 1];
      assert all[..|all| - 1] == inbox + Silently(init);
      SilentPartAppend(inbox, init);
      assert bytes == init + [bytes[|bytes| - 1]];
    }
  }

  lemma SilentPartStep(c: Channel, step: Step)
    requires Enabled(c, step)
    ensures SilentPart(Next(c, step).inbox) == SilentSince([step], SilentPart(c.inbox))
  {
    match step
    case Append(b) =>
      assert Next(c, step).inbox[..|c.inbox|] == c.inbox;
    case Bulk(bytes) => SilentPartAppend(c.inbox, bytes);
    case _ =>
  }

  lemma SilentSinceStep(steps: seq<Step>, carry: seq<Byte>)
    requires steps != []
    ensures SilentSince(steps, carry) == SilentSince(steps[1..], SilentSince([steps[0]], carry))
  {
    assert [steps[0]][1..] == [];
  }

  lemma SilentSinceNone(carry: seq<Byte>)
    ensures SilentSince([], carry) == carry
  {
  }

  lemma {:induction false} RunKeepsAwake(c: Channel, steps: seq<Step>, c': Channel)
    requires Awake(c) && Runs(c, steps, c')
    ensures Awake(c') && SilentPart(c'.inbox) == SilentSince(steps, SilentPart(c.inbox))
    decreases |steps|
  {
    if steps != [] {
      hide Next, Enabled, Awake, SilentPart, SilentSince;
      StepKeepsAwake(c, steps[0]);
      SilentPartStep(c, steps[0]);
      SilentSinceStep(steps, SilentPart(c.inbox));
      RunKeepsAwake(Next(c, steps[0]), steps[1..], c');
    } else {
      SilentSinceNone(SilentPart(c.inbox));
    }
  }

  /** Nothing in the server will move again without new traffic. */
  predicate Quiescent(c: Channel) {
    c.pending == 0 && forall r :: 0 <= r < |c.readers| ==> c.readers[r] == Blocked || c.readers[r] == Gone
  }

  lemma {:induction false} OnlySilent(inbox: seq<Item>)
    requires !SomeNotified(inbox)
    ensures |SilentPart(inbox)| == |inbox|
    ensures forall i :: 0 <= i < |inbox| ==> SilentPart(inbox)[i] == inbox[i].data
  {
    if inbox != [] {
      var init := inbox[..|inbox| - 1];
      assert forall i :: 0 <= i < |init| ==> init[i] == inbox[i];
      OnlySilent(init);
    }
  }

  /** Exactly what can be stranded. In every reachable quiescent state with a reader still
      attached, the inbox holds the bulk deposits made since the last drain and nothing
      else: it is empty if and only if there were none. */
  lemma StrandedBytes(steps: seq<Step>, c: Channel)
    requires Runs(START, steps, c) && Quiescent(c) && Blocked in c.readers
    ensures |c.inbox| == |SilentSince(steps, [])|
    ensures forall i :: 0 <= i < |c.inbox| ==> c.inbox[i].data == SilentSince(steps, [])[i]
  {
    RunKeepsAwake(START, steps, c);
    OnlySilent(c.inbox);
  }

  // ------------------------------------------------------------ progress

  /** Steps the server takes on its own, once traffic has stopped. */
  predicate Internal(step: Step) {
    step.Notify? || step.Drain? || step.Deliver? || step.Await?
  }

  function Rank(r: Reader): nat {
    match r
    case Writing(_) => 3
    case Draining => 2
    case Waiting => 1
    case Blocked => 0
    case Gone => 0
  }

  function Ranks(readers: seq<Reader>): nat {
    if readers == [] then 0 else Rank(readers[0]) + Ranks(readers[1..])
  }

  lemma {:induction false} RanksUpdate(readers: seq<Reader>, i: nat, to: Reader)
    requires i < |readers|
    ensures Ranks(readers[i := to]) == Ranks(readers) - Rank(readers[i]) + Rank(to)
  {
    if i > 0 {
      assert readers[i := to][1..] == readers[1..][i - 1 := to];
      RanksUpdate(readers[1..], i - 1, to);
    }
  }

  function Work(c: Channel): nat {
    (if c.inbox == [] then 0 else 2) + 5 * c.pending + (if c.permit then 4 else 0) + Ranks(c.readers)
  }

  lemma InternalStepsConsumeWork(c: Channel, step: Step)
    requires Enabled(c, step) && Internal(step)
    ensures Work(Next(c, step)) < Work(c)
  {
    match step
    case Notify(woken) => if AnyBlocked(c) { RanksUpdate(c.readers, woken, Draining); }
    case Drain(r) => RanksUpdate(c.readers, r, if c.inbox == [] then Waiting else Writing(Data(c.inbox)));
    case Deliver(r, sent) => RanksUpdate(c.readers, r, AfterWrite(c.readers[r], sent));
    case Await(r) => RanksUpdate(c.readers, r, if c.permit then Draining else Blocked);
  }

  /** The server is quiescent exactly when it has no step of its own left. */
  lemma QuiescentIffNoStep(c: Channel)
    ensures Quiescent(c) <==> forall step :: Internal(step) ==> !Enabled(c, step)
  {
    if !Quiescent(c) {
      if c.pending > 0 {
        if AnyBlocked(c) {
          var w: nat :| w < |c.readers| && c.readers[w] == Blocked;
          assert Enabled(c, Notify(w));
        } else {
          assert Enabled(c, Notify(0));
        }
      } else {
        var r: nat :| r < |c.readers| && c.readers[r] != Blocked && c.readers[r] != Gone;
        var step := match c.readers[r]
          case Draining => Drain(r)
          case Writing(batch) => Deliver(r, |batch|)
          case _ => Await(r);
        assert Internal(step) && Enabled(c, step);
      }
    }
  }

  lemma {:induction false} InternalRunsEnd(c: Channel, steps: seq<Step>, c': Channel)
    requires Runs(c, steps, c') && forall i :: 0 <= i < |steps| ==> Internal(steps[i])
    ensures |steps| + Work(c') <= Work(c)
    decreases |steps|
  {
    if steps != [] {
      InternalStepsConsumeWork(c, steps[0]);
      InternalRunsEnd(Next(c, steps[0]), steps[1..], c');
    }
  }

  /** Every notified byte is picked up: once traffic stops, every schedule of the server's
      own steps is finite, and where it stops either no reader is left or no notified byte is. */
  lemma NotifiedBytesDrain(steps: seq<Step>, mid: Channel, own: seq<Step>, c: Channel)
    requires Runs(START, steps, mid) && Runs(mid, own, c)
    requires forall i :: 0 <= i < |own| ==> Internal(own[i])
    ensures |own| <= Work(mid)
    ensures (forall step :: Internal(step) ==> !Enabled(c, step)) && Blocked in c.readers ==> !SomeNotified(c.inbox)
  {
    RunKeepsAwake(START, steps, mid);
    RunKeepsAwake(mid, own, c);
    InternalRunsEnd(mid, own, c);
    QuiescentIffNoStep(c);
  }

  /** A bulk deposit does strand its bytes: made while the reader sleeps, it leaves a state
      in which the bytes wait and the server has nothing left to do. */
  lemma BulkDepositStrands(c: Channel, bytes: seq<Byte>)
    requires Quiescent(c) && bytes != []
    ensures var r := Next(c, Bulk(bytes));
            |r.inbox| >= |bytes| && (forall step :: Internal(step) ==> !Enabled(r, step))
  {
  }

  /** Such a state is reachable: one attached reader that has gone to sleep, one SERWRITEM. */
  lemma StrandingHappens(b: Byte)
    ensures Runs(START, [Attach, Drain(0), Await(0), Bulk([b])], Channel([Item(b, Silent)], false, 0, [Blocked]))
  {
    var s1 := Next(START, Attach);
    var s2 := Next(s1, Drain(0));
    var s3 := Next(s2, Await(0));
    var s4 := Next(s3, Bulk([b]));
    assert s3 == Channel([], false, 0, [Blocked]);
    assert s4.inbox == [Item(b, Silent)];
    assert Runs(s4, [], s4);
    assert [Bulk([b])][1..] == [];
    assert Runs(s3, [Bulk([b])], s4);
    assert [Await(0), Bulk([b])][1..] == [Bulk([b])];
    assert Runs(s2, [Await(0), Bulk([b])], s4);
    assert [Drain(0), Await(0), Bulk([b])][1..] == [Await(0), Bulk([b])];
    assert Runs(s1, [Drain(0), Await(0), Bulk([b])], s4);
    assert [Attach, Drain(0), Await(0), Bulk([b])][1..] == [Drain(0), Await(0), Bulk([b])];
  }
}
