/** What becomes of every byte the guest deposits on a channel: waiting, in the hands of an attach
    task, sent to a client, or lost. */
module Delivery {
  import opened Proto
  import opened Wakeup

  /** What one drain took, by whom, and how much of it was sent; None while it is being written. */
  datatype Batch = Batch(reader: nat, bytes: seq<Byte>, sent: Option<nat>)

  /** A channel with the history of its deposits and drains. */
  datatype Traced = Traced(c: Channel, deposited: seq<Byte>, log: seq<Batch>)

  const BEGIN := Traced(START, [], [])

  /** Position of a reader's latest batch, or the length of the log if it has none. */
  function LastOf(log: seq<Batch>, r: nat): (k: nat)
    ensures k <= |log| && (k < |log| ==> log[k].reader == r)
    ensures forall i :: 0 <= i < |log| && log[i].reader == r ==> i <= k < |log|
  {
    if log == [] then 0
    else if log[|log| - 1].reader == r then |log| - 1
    else
      var k := LastOf(log[..|log| - 1], r);
      if k == |log| - 1 then |log| else k
  }

  function Brings(step: Step): seq<Byte> {
    match step
    case Append(b) => [b]
    case Bulk(bytes) => bytes
    case _ => []
  }

  function NextLog(t: Traced, step: Step): seq<Batch>
    requires Enabled(t.c, step)
  {
    match step
    case Drain(r) => if t.c.inbox == [] then t.log else t.log + [Batch(r, Data(t.c.inbox), None)]
    case Deliver(r, sent) =>
      var k := LastOf(t.log, r);
      if k == |t.log| then t.log else t.log[k := t.log[k].(sent := Some(sent))]
    case _ => t.log
  }

  function TracedNext(t: Traced, step: Step): Traced
    requires Enabled(t.c, step)
  {
    Traced(Next(t.c, step), t.deposited + Brings(step), NextLog(t, step))
  }

  ghost predicate TracedRuns(t: Traced, steps: seq<Step>, t': Traced)
    decreases |steps|
  {
    if steps == [] then t' == t
    else Enabled(t.c, steps[0]) && TracedRuns(TracedNext(t, steps[0]), steps[1..], t')
  }

  // ------------------------------------------------------------ accounts

  function Drained(log: seq<Batch>): seq<Byte> {
    if log == [] then [] else Drained(log[..|log| - 1]) + log[|log| - 1].bytes
  }

  predicate Whole(b: Batch) { b.sent == Some(|b.bytes|) }

  predicate Lost(b: Batch) { b.sent.Some? && b.sent.value < |b.bytes| }

  /** A batch belongs to a task. It is unsent while that task writes it, sent whole, or cut short,
      and then the task has ended. */
  predicate Settled(c: Channel, b: Batch) {
    && b.reader < |c.readers| && b.bytes != []
    && match b.sent
       case None => c.readers[b.reader] == Writing(b.bytes)
       case Some(n) => n <= |b.bytes| && (n < |b.bytes| ==> c.readers[b.reader] == Gone)
  }

  /** A task that is writing has an unsent batch; one that has ended has lost part of one. */
  predicate Explained(t: Traced, r: nat)
    requires r < |t.c.readers|
  {
    var k := LastOf(t.log, r);
    && (t.c.readers[r].Writing? ==> k < |t.log| && t.log[k].sent == None)
    && (t.c.readers[r].Gone? ==> k < |t.log| && Lost(t.log[k]))
  }

  ghost predicate Accounted(t: Traced) {
    && t.deposited == Drained(t.log) + Data(t.c.inbox)
    && (forall i :: 0 <= i < |t.log| ==> Settled(t.c, t.log[i]))
    && (forall i, j :: 0 <= i < j < |t.log| && t.log[i].reader == t.log[j].reader ==> Whole(t.log[i]))
    && (forall r :: 0 <= r < |t.c.readers| ==> Explained(t, r))
  }

  lemma {:induction false} DrainedUpdate(log: seq<Batch>, k: nat, sent: Option<nat>)
    requires k < |log|
    ensures Drained(log[k := log[k].(sent := sent)]) == Drained(log)
    decreases |log|
  {
    var log' := log[k := log[k].(sent := sent)];
    if k < |log| - 1 {
      assert log'[..|log| - 1] == log[..|log| - 1][k := log[k].(sent := sent)];
      DrainedUpdate(log[..|log| - 1], k, sent);
    } else {
      assert log'[..|log| - 1] == log[..|log| - 1];
    }
  }

  lemma DataAppend(a: seq<Item>, b: seq<Item>)
    ensures Data(a + b) == Data(a) + Data(b)
  {
  }

  lemma BytesAccounted(t: Traced, step: Step)
    requires Accounted(t) && Enabled(t.c, step)
    ensures var t' := TracedNext(t, step); t'.deposited == Drained(t'.log) + Data(t'.c.inbox)
  {
    hide Settled, Explained, LastOf;
    var t' := TracedNext(t, step);
    match step
    case Append(b) =>
      DataAppend(t.c.inbox, [Item(b, Notified)]);
      assert Data([Item(b, Notified)]) == [b];
    case Bulk(bytes) =>
      DataAppend(t.c.inbox, Silently(bytes));
      assert Data(Silently(bytes)) == bytes;
    case Drain(r) =>
      if t.c.inbox != [] { assert t'.log[..|t'.log| - 1] == t.log; }
    case Deliver(r, sent) =>
      var k := LastOf(t.log, r);
      if k < |t.log| { DrainedUpdate(t.log, k, Some(sent)); }
    case _ =>
  }

  /** A task's write settles the batch it holds, and no other. */
  lemma DeliverHits(t: Traced, r: nat)
    requires Accounted(t) && r < |t.c.readers| && t.c.readers[r].Writing?
    ensures var k := LastOf(t.log, r);
            k < |t.log| && t.log[k].sent == None && t.log[k].reader == r && t.log[k].bytes == t.c.readers[r].batch
            && forall i :: 0 <= i < |t.log| && i != k && t.log[i].reader == r ==> i < k && Whole(t.log[i])
  {
    hide LastOf;
    assert Explained(t, r);
    var k := LastOf(t.log, r);
    assert Settled(t.c, t.log[k]);
  }

  lemma BatchSettled(t: Traced, step: Step, i: nat)
    requires Accounted(t) && Enabled(t.c, step) && i < |TracedNext(t, step).log|
    ensures Settled(TracedNext(t, step).c, TracedNext(t, step).log[i])
  {
    hide LastOf, Drained;
    if step.Deliver? { DeliverHits(t, step.reader); }
    if i < |t.log| { assert Settled(t.c, t.log[i]); }
  }

  lemma BatchesOrdered(t: Traced, step: Step, i: nat, j: nat)
    requires Accounted(t) && Enabled(t.c, step) && i < j < |TracedNext(t, step).log|
    requires TracedNext(t, step).log[i].reader == TracedNext(t, step).log[j].reader
    ensures Whole(TracedNext(t, step).log[i])
  {
    hide LastOf, Drained, Explained;
    assert Settled(t.c, t.log[i]);
  }

  lemma LastUnique(log: seq<Batch>, r: nat, k: nat)
    requires k < |log| && log[k].reader == r && forall i :: k < i < |log| ==> log[i].reader != r
    ensures LastOf(log, r) == k
  {
    var l := LastOf(log, r);
  }

  lemma TaskExplained(t: Traced, step: Step, r: nat)
    requires Accounted(t) && Enabled(t.c, step) && r < |TracedNext(t, step).c.readers|
    ensures Explained(TracedNext(t, step), r)
  {
    hide LastOf, Drained, Settled;
    var t' := TracedNext(t, step);
    var k := LastOf(t.log, r);
    if r < |t.c.readers| { assert Explained(t, r); }
    match step
    case Drain(d) =>
      if t.c.inbox != [] {
        if d == r { LastUnique(t'.log, r, |t.log|); }
        else if k < |t.log| { LastUnique(t'.log, r, k); }
      }
    case Deliver(d, sent) =>
      DeliverHits(t, d);
      if k < |t.log| { LastUnique(t'.log, r, k); }
    case _ =>
  }

  lemma StepAccounts(t: Traced, step: Step)
    requires Accounted(t) && Enabled(t.c, step)
    ensures Accounted(TracedNext(t, step))
  {
    hide TracedNext, Settled, Explained, Drained;
    var t' := TracedNext(t, step);
    BytesAccounted(t, step);
    forall i | 0 <= i < |t'.log| ensures Settled(t'.c, t'.log[i]) { BatchSettled(t, step, i); }
    forall i, j | 0 <= i < j < |t'.log| && t'.log[i].reader == t'.log[j].reader ensures Whole(t'.log[i]) {
      BatchesOrdered(t, step, i, j);
    }
    forall r | 0 <= r < |t'.c.readers| ensures Explained(t', r) { TaskExplained(t, step, r); }
  }

  // ---------------------------------------------------------- whole runs

  /** What the guest deposited, from the steps alone. */
  function DepositedBy(steps: seq<Step>): seq<Byte> {
    if steps == [] then [] else Brings(steps[0]) + DepositedBy(steps[1..])
  }

  function LostBatches(log: seq<Batch>): nat {
    if log == [] then 0
    else LostBatches(log[..|log| - 1]) + (if Lost(log[|log| - 1]) then 1 else 0)
  }

  lemma {:induction false} LostUpdate(log: seq<Batch>, k: nat, b: Batch)
    requires k < |log| && !Lost(log[k])
    ensures LostBatches(log[k := b]) == LostBatches(log) + (if Lost(b) then 1 else 0)
    decreases |log|
  {
    if k < |log| - 1 {
      assert log[k := b][..|log| - 1] == log[..|log| - 1][k := b];
      LostUpdate(log[..|log| - 1], k, b);
    } else {
      assert log[k := b][..|log| - 1] == log[..|log| - 1];
    }
  }

  /** The step is a socket write that fails. */
  predicate Fails(c: Channel, step: Step)
    requires Enabled(c, step)
  {
    step.Deliver? && step.sent < |c.readers[step.reader].batch|
  }

  lemma StepLoses(t: Traced, step: Step)
    requires Accounted(t) && Enabled(t.c, step)
    ensures LostBatches(TracedNext(t, step).log) == LostBatches(t.log) + (if Fails(t.c, step) then 1 else 0)
  {
    hide LastOf, Drained, Settled, Explained;
    var t' := TracedNext(t, step);
    match step
    case Drain(r) =>
      if t.c.inbox != [] { assert t'.log[..|t'.log| - 1] == t.log; }
    case Deliver(r, sent) =>
      DeliverHits(t, r);
      var k := LastOf(t.log, r);
      LostUpdate(t.log, k, t.log[k].(sent := Some(sent)));
    case _ =>
  }

  ghost function FailedWrites(t: Traced, steps: seq<Step>, t': Traced): nat
    requires TracedRuns(t, steps, t')
    decreases |steps|
  {
    if steps == [] then 0
    else (if Fails(t.c, steps[0]) then 1 else 0) + FailedWrites(TracedNext(t, steps[0]), steps[1..], t')
  }

  lemma {:induction false} RunAccounts(t: Traced, steps: seq<Step>, t': Traced)
    requires Accounted(t) && TracedRuns(t, steps, t')
    ensures Accounted(t') && t'.deposited == t.deposited + DepositedBy(steps)
    ensures LostBatches(t'.log) == LostBatches(t.log) + FailedWrites(t, steps, t')
    ensures Runs(t.c, steps, t'.c)
    decreases |steps|
  {
    if steps != [] {
      hide Accounted, Enabled, Next, NextLog, LostBatches, Brings, Fails, TracedRuns, FailedWrites, DepositedBy;
      var step := steps[0];
      RunUnfold(t, steps, t');
      StepAccounts(t, step);
      StepLoses(t, step);
      RunAccounts(TracedNext(t, step), steps[1..], t');
      BytesAssoc(t.deposited, Brings(step), DepositedBy(steps[1..]));
    }
  }

  lemma RunUnfold(t: Traced, steps: seq<Step>, t': Traced)
    requires TracedRuns(t, steps, t') && steps != []
    ensures Enabled(t.c, steps[0]) && TracedRuns(TracedNext(t, steps[0]), steps[1..], t')
    ensures FailedWrites(t, steps, t') ==
            (if Fails(t.c, steps[0]) then 1 else 0) + FailedWrites(TracedNext(t, steps[0]), steps[1..], t')
    ensures DepositedBy(steps) == Brings(steps[0]) + DepositedBy(steps[1..])
  {
  }

  lemma BytesAssoc(a: seq<Byte>, b: seq<Byte>, c: seq<Byte>)
    ensures (a + b) + c == a + (b + c)
  {
  }

  /** What clients received: the sent part of every settled batch, in the order of the drains. */
  function Received(log: seq<Batch>): seq<Byte> {
    if log == [] then []
    else
      var b := log[|log| - 1];
      Received(log[..|log| - 1]) + (if b.sent.Some? && b.sent.value <= |b.bytes| then b.bytes[..b.sent.value] else [])
  }

  lemma {:induction false} WholeReceived(log: seq<Batch>)
    requires forall i :: 0 <= i < |log| ==> Whole(log[i])
    ensures Received(log) == Drained(log)
  {
    if log != [] {
      var b := log[|log| - 1];
      WholeReceived(log[..|log| - 1]);
      assert Whole(b) && b.bytes[..|b.bytes|] == b.bytes;
    }
  }

  lemma {:induction false} NoneLost(log: seq<Batch>, i: nat)
    requires i < |log| && LostBatches(log) == 0
    ensures !Lost(log[i])
  {
    if i < |log| - 1 { NoneLost(log[..|log| - 1], i); }
  }

  /** Every deposited byte is accounted for, after every run with any number of attach tasks. What
      the guest deposited is what was drained, in order, and what still waits; each drained batch
      is being written, was sent whole, or lost its tail in a write that failed and ended its task;
      a task loses at most its last batch; and exactly as many batches lost bytes as writes failed. */
  lemma EveryByteAccounted(steps: seq<Step>, t: Traced)
    requires TracedRuns(BEGIN, steps, t)
    ensures Accounted(t) && DepositedBy(steps) == Drained(t.log) + Data(t.c.inbox)
    ensures LostBatches(t.log) == FailedWrites(BEGIN, steps, t)
    ensures Runs(START, steps, t.c)
  {
    RunAccounts(BEGIN, steps, t);
  }

  /** When no write has failed and none is under way, the clients together have received exactly
      what was deposited, in order, up to what still waits. */
  lemma AllReceived(steps: seq<Step>, t: Traced)
    requires TracedRuns(BEGIN, steps, t) && FailedWrites(BEGIN, steps, t) == 0
    requires forall r :: 0 <= r < |t.c.readers| ==> !t.c.readers[r].Writing?
    ensures DepositedBy(steps) == Received(t.log) + Data(t.c.inbox)
  {
    hide TracedRuns, Drained, LostBatches, Received;
    EveryByteAccounted(steps, t);
    forall i | 0 <= i < |t.log| ensures Whole(t.log[i]) {
      NoneLost(t.log, i);
      assert Settled(t.c, t.log[i]);
    }
    WholeReceived(t.log);
  }

  // ------------------------------------------------------- tasks left behind

  /** A task left over from a client that has gone can take the wakeup meant for another: whenever
      two tasks are asleep, the next byte may wake the first, be lost with everything waiting when
      its write fails, and leave the second asleep. */
  lemma LeftoverTaskLoses(t: Traced, stale: nat, live: nat, b: Byte) returns (steps: seq<Step>, t': Traced)
    requires stale != live && Is(t.c, stale, Blocked) && Is(t.c, live, Blocked)
    ensures TracedRuns(t, steps, t') && DepositedBy(steps) == [b]
    ensures t'.c.inbox == [] && Is(t'.c, live, Blocked) && Is(t'.c, stale, Gone)
    ensures t'.log == t.log + [Batch(stale, Data(t.c.inbox) + [b], Some(0))] && Lost(t'.log[|t.log|])
  {
    hide Data, LastOf, TracedRuns;
    var s1, s2, s3, s4 := Append(b), Notify(stale), Drain(stale), Deliver(stale, 0);
    var t1 := TracedNext(t, s1);
    assert t.c.readers[stale] == Blocked;
    var t2 := TracedNext(t1, s2);
    var t3 := TracedNext(t2, s3);
    assert t3.log[|t.log|].reader == stale;
    t' := TracedNext(t3, s4);
    steps := [s1] + ([s2] + ([s3] + [s4]));
    LostByte(t.c.inbox, b);
    hide Next, NextLog;
    OneStep(t, s1);
    OneStep(t1, s2);
    OneStep(t2, s3);
    OneStep(t3, s4);
    OneMore(t2, s3, [s4], t');
    OneMore(t1, s2, [s3] + [s4], t');
    OneMore(t, s1, [s2] + ([s3] + [s4]), t');
  }

  lemma OneStep(t: Traced, step: Step)
    requires Enabled(t.c, step)
    ensures TracedRuns(t, [step], TracedNext(t, step)) && DepositedBy([step]) == Brings(step)
  {
    assert [step][1..] == [];
  }

  lemma OneMore(t: Traced, step: Step, steps: seq<Step>, t': Traced)
    requires Enabled(t.c, step) && TracedRuns(TracedNext(t, step), steps, t')
    ensures TracedRuns(t, [step] + steps, t') && DepositedBy([step] + steps) == Brings(step) + DepositedBy(steps)
  {
    assert ([step] + steps)[1..] == steps;
  }

  lemma LostByte(inbox: seq<Item>, b: Byte)
    ensures Data(inbox + [Item(b, Notified)]) == Data(inbox) + [b]
  {
  }

  /** Two sleeping tasks are reachable: one client after another attaches and finds nothing. */
  lemma TwoAsleep()
    ensures Runs(START, [Attach, Drain(0), Await(0)] + [Attach, Drain(1), Await(1)],
                 Channel([], false, 0, [Blocked, Blocked]))
  {
    var one, two := Channel([], false, 0, [Blocked]), Channel([], false, 0, [Blocked, Blocked]);
    AttachSleeps(START);
    AttachSleeps(one);
    assert START.readers + [Blocked] == [Blocked] && [Blocked] + [Blocked] == [Blocked, Blocked];
    RunsConcat(START, [Attach, Drain(0), Await(0)], one, [Attach, Drain(1), Await(1)], two);
  }

  lemma AttachSleeps(c: Channel)
    requires c.inbox == [] && !c.permit
    ensures var r := |c.readers|;
            Runs(c, [Attach, Drain(r), Await(r)], c.(readers := c.readers + [Blocked]))
  {
    var r := |c.readers|;
    var c1 := Next(c, Attach);
    var c2 := Next(c1, Drain(r));
    var c3 := Next(c2, Await(r));
    assert c3 == c.(readers := c.readers + [Blocked]);
    var s := [Attach, Drain(r), Await(r)];
    assert s[1..][1..][1..] == [];
    assert Runs(c3, s[1..][1..][1..], c3);
    assert Runs(c2, s[1..][1..], c3);
    assert Runs(c1, s[1..], c3);
  }

  lemma {:induction false} RunsConcat(a: Channel, s1: seq<Step>, b: Channel, s2: seq<Step>, c: Channel)
    requires Runs(a, s1, b) && Runs(b, s2, c)
    ensures Runs(a, s1 + s2, c)
    decreases |s1|
  {
    if s1 == [] {
      assert s1 + s2 == s2;
    } else {
      assert (s1 + s2)[1..] == s1[1..] + s2;
      RunsConcat(Next(a, s1[0]), s1[1..], b, s2, c);
    }
  }
}
