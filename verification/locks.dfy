/** The server's locks: which operation takes which, in what mode, and why no set of concurrent
    operations can block itself. Waiters queue first come, first served, and a reader behind a
    waiting writer waits. Transport writes made while a lock is held are assumed to complete. */
module Locks {

  datatype Lock = Drives | Image(id: nat) | Printer | Open | Inbox | Outbox

  datatype Action = Acquire(lock: Lock, shared: bool) | Release(lock: Lock)

  /** What can be running: guest commands, host-side calls and control requests. */
  datatype Operation =
    | DiskAccess(image: nat)  // READ, READEX, WRITE
    | MountOrUnmount
    | PrintByte
    | SetChannel              // SERINIT, SERTERM, SERSETSTAT
    | ToInbox                 // SERWRITE, SERWRITEM, FASTWRITE, drain
    | ToOutbox                // SERREAD, SERREADM, host send
    | Status

  function Use(l: Lock): seq<Action> { [Acquire(l, false), Release(l)] }

  /** Under the read half of the drive table's reader-writer lock. */
  function LookUpDrives(): seq<Action> { [Acquire(Drives, true), Release(Drives)] }

  /** Lock actions in program order. Only STATUS holds one lock (the inboxes) while it waits
      for another (the outboxes). */
  function Program(op: Operation): seq<Action> {
    match op
    case DiskAccess(h) => LookUpDrives() + Use(Image(h))
    case MountOrUnmount => Use(Drives)
    case PrintByte => Use(Printer)
    case SetChannel => Use(Open)
    case ToInbox => Use(Inbox)
    case ToOutbox => Use(Outbox)
    case Status =>
      LookUpDrives() + Use(Open) + [Acquire(Inbox, false), Acquire(Outbox, false), Release(Outbox), Release(Inbox)]
  }

  function Rank(l: Lock): nat { if l == Outbox then 1 else 0 }

  /** `held` says of each lock held whether it is held shared. */
  datatype Thread = Thread(op: Operation, held: map<Lock, bool>, todo: seq<Action>, waiting: bool)

  datatype World = World(ts: seq<Thread>, queues: map<Lock, seq<nat>>)

  function Queue(w: World, l: Lock): seq<nat> { if l in w.queues then w.queues[l] else [] }

  /** From here on the thread only waits for locks above all it holds, and ends holding none. */
  predicate Ordered(held: set<Lock>, todo: seq<Action>)
    decreases |todo|
  {
    if todo == [] then held == {}
    else match todo[0]
      case Acquire(l, _) => (forall k :: k in held ==> Rank(k) < Rank(l)) && Ordered(held + {l}, todo[1..])
      case Release(l) => l in held && Ordered(held - {l}, todo[1..])
  }

  predicate WaitsFor(t: Thread, l: Lock) { t.waiting && t.todo != [] && t.todo[0].Acquire? && t.todo[0].lock == l }

  predicate InQueue(w: World, i: nat)
    requires i < |w.ts|
  {
    var t := w.ts[i];
    t.waiting ==> t.todo != [] && t.todo[0].Acquire? && i in Queue(w, t.todo[0].lock)
  }

  predicate QueueSound(w: World, l: Lock) {
    var q := Queue(w, l);
    && (forall a :: 0 <= a < |q| ==> q[a] < |w.ts| && WaitsFor(w.ts[q[a]], l))
    && (forall a, b :: 0 <= a < b < |q| ==> q[a] != q[b])
  }

  /** Queues hold exactly the waiting threads, each once. */
  ghost predicate Queued(w: World) {
    (forall i :: 0 <= i < |w.ts| ==> InQueue(w, i)) && (forall l :: QueueSound(w, l))
  }

  /** Two threads hold the same lock only if both hold it shared. */
  ghost predicate Exclusion(w: World) {
    forall i, j, l :: 0 <= i < |w.ts| && 0 <= j < |w.ts| && i != j && l in w.ts[i].held && l in w.ts[j].held ==>
      w.ts[i].held[l] && w.ts[j].held[l]
  }

  ghost predicate Inv(w: World) {
    && (forall i :: 0 <= i < |w.ts| ==> Ordered(w.ts[i].held.Keys, w.ts[i].todo))
    && Queued(w) && Exclusion(w)
  }

  datatype Step =
    | Spawn(op: Operation)
    | Request(thread: nat)  // arrive at a lock and join its queue
    | Grant(lock: Lock)     // to the head of its queue
    | Unlock(thread: nat)

  predicate Compatible(w: World, l: Lock, shared: bool) {
    forall i :: 0 <= i < |w.ts| && l in w.ts[i].held ==> shared && w.ts[i].held[l]
  }

  predicate Enabled(w: World, step: Step) {
    match step
    case Spawn(_) => true
    case Request(i) => i < |w.ts| && w.ts[i].todo != [] && w.ts[i].todo[0].Acquire? && !w.ts[i].waiting
    case Grant(l) =>
      Queue(w, l) != [] && Queue(w, l)[0] < |w.ts| && WaitsFor(w.ts[Queue(w, l)[0]], l)
      && Compatible(w, l, w.ts[Queue(w, l)[0]].todo[0].shared)
    case Unlock(i) => i < |w.ts| && w.ts[i].todo != [] && w.ts[i].todo[0].Release?
  }

  function Next(w: World, step: Step): World
    requires Enabled(w, step)
  {
    match step
    case Spawn(op) => w.(ts := w.ts + [Thread(op, map[], Program(op), false)])
    case Request(i) =>
      var l := w.ts[i].todo[0].lock;
      World(w.ts[i := w.ts[i].(waiting := true)], w.queues[l := Queue(w, l) + [i]])
    case Grant(l) =>
      var i := Queue(w, l)[0];
      var t := w.ts[i];
      World(w.ts[i := Thread(t.op, t.held[l := t.todo[0].shared], t.todo[1..], false)], w.queues[l := Queue(w, l)[1..]])
    case Unlock(i) =>
      var t := w.ts[i];
      w.(ts := w.ts[i := t.(held := t.held - {t.todo[0].lock}, todo := t.todo[1..])])
  }

  ghost predicate Runs(w: World, steps: seq<Step>, w': World)
    decreases |steps|
  {
    if steps == [] then w' == w
    else Enabled(w, steps[0]) && Runs(Next(w, steps[0]), steps[1..], w')
  }

  /** What each operation works on, and the lock it must hold to do so. */
  lemma ProgramsGuard(op: Operation)
    ensures op.DiskAccess? ==> Acquire(Drives, true) in Program(op) && Acquire(Image(op.image), false) in Program(op)
    ensures op == MountOrUnmount ==> Acquire(Drives, false) in Program(op)
    ensures op == PrintByte ==> Acquire(Printer, false) in Program(op)
    ensures op == SetChannel ==> Acquire(Open, false) in Program(op)
    ensures op == ToInbox ==> Acquire(Inbox, false) in Program(op)
    ensures op == ToOutbox ==> Acquire(Outbox, false) in Program(op)
    ensures op == Status ==> Acquire(Drives, true) in Program(op) && Acquire(Open, false) in Program(op)
                             && Acquire(Inbox, false) in Program(op) && Acquire(Outbox, false) in Program(op)
  {
  }

  lemma UseOrdered(l: Lock, shared: bool, rest: seq<Action>)
    requires Ordered({}, rest)
    ensures Ordered({}, [Acquire(l, shared), Release(l)] + rest)
  {
  }

  lemma ProgramsOrdered(op: Operation)
    ensures Ordered({}, Program(op))
  {
    assert Ordered({}, []);
    match op
    case DiskAccess(h) =>
      UseOrdered(Image(h), false, []);
      assert Use(Image(h)) + [] == Use(Image(h));
      UseOrdered(Drives, true, Use(Image(h)));
    case Status =>
      var nest := [Acquire(Inbox, false), Acquire(Outbox, false), Release(Outbox), Release(Inbox)];
      NestOrdered(nest);
      UseOrdered(Open, false, nest);
      UseOrdered(Drives, true, Use(Open) + nest);
      assert Program(op) == LookUpDrives() + (Use(Open) + nest);
    case _ =>
      var l := if op == MountOrUnmount then Drives else if op == PrintByte then Printer
               else if op == SetChannel then Open else if op == ToInbox then Inbox else Outbox;
      UseOrdered(l, false, []);
      assert Use(l) + [] == Use(l);
  }

  lemma NestOrdered(nest: seq<Action>)
    requires nest == [Acquire(Inbox, false), Acquire(Outbox, false), Release(Outbox), Release(Inbox)]
    ensures Ordered({}, nest)
  {
    assert {Inbox, Outbox} - {Outbox} == {Inbox} && {Inbox} - {Inbox} == {} && {Inbox} + {Outbox} == {Inbox, Outbox};
    assert nest[1..][1..][1..][1..] == [];
    assert Ordered({Inbox}, nest[1..][1..][1..]);
    assert Ordered({Inbox, Outbox}, nest[1..][1..]);
    assert Ordered({Inbox}, nest[1..]);
    assert {} + {Inbox} == {Inbox};
  }

  lemma StepOrdered(w: World, step: Step, i: nat)
    requires Inv(w) && Enabled(w, step) && i < |Next(w, step).ts|
    ensures Ordered(Next(w, step).ts[i].held.Keys, Next(w, step).ts[i].todo)
  {
    var t' := Next(w, step).ts[i];
    if i == |w.ts| {
      ProgramsOrdered(step.op);
      assert t'.held.Keys == {};
    } else {
      var t := w.ts[i];
      assert Ordered(t.held.Keys, t.todo);
      if step.Grant? && Queue(w, step.lock)[0] == i {
        assert t'.held.Keys == t.held.Keys + {step.lock};
      } else if step == Unlock(i) {
        assert t'.held.Keys == t.held.Keys - {t.todo[0].lock};
      }
    }
  }

  lemma StepInQueue(w: World, step: Step, i: nat)
    requires Queued(w) && Enabled(w, step) && i < |Next(w, step).ts|
    ensures InQueue(Next(w, step), i)
  {
    hide Compatible, Program;
    if i < |w.ts| {
      assert InQueue(w, i);
      if step.Grant? { assert QueueSound(w, step.lock); }
    }
  }

  /** A queue whose members are left alone stays sound, and so does any part of it. */
  lemma QueueFrame(w: World, w': World, l: Lock)
    requires QueueSound(w, l) && |w.ts| <= |w'.ts|
    requires Queue(w', l) == Queue(w, l) || (Queue(w, l) != [] && Queue(w', l) == Queue(w, l)[1..])
    requires var q' := Queue(w', l);
             forall a :: 0 <= a < |q'| ==> q'[a] < |w.ts| && w'.ts[q'[a]] == w.ts[q'[a]]
    ensures QueueSound(w', l)
  {
  }

  lemma JoinSound(w: World, i: nat)
    requires Queued(w) && Enabled(w, Request(i))
    ensures QueueSound(Next(w, Request(i)), w.ts[i].todo[0].lock)
  {
    hide InQueue;
    var l := w.ts[i].todo[0].lock;
    assert QueueSound(w, l);
    var q, q' := Queue(w, l), Queue(Next(w, Request(i)), l);
    assert q' == q + [i];
    forall a | 0 <= a < |q| ensures q[a] != i { assert WaitsFor(w.ts[q[a]], l); }
  }

  lemma StepQueueSound(w: World, step: Step, l: Lock)
    requires Queued(w) && Enabled(w, step)
    ensures QueueSound(Next(w, step), l)
  {
    hide Compatible, Program, QueueSound, Queued;
    QueuedMeans(w, step, l);
    var w' := Next(w, step);
    match step
    case Spawn(_) => QueueFrame(w, w', l);
    case Request(i) => if l == w.ts[i].todo[0].lock { JoinSound(w, i); } else { QueueFrame(w, w', l); }
    case Grant(_) => QueueFrame(w, w', l);
    case Unlock(_) => QueueFrame(w, w', l);
  }

  /** Who is in a queue after the step was in it before, and is not the one that moved. */
  lemma QueuedMeans(w: World, step: Step, l: Lock)
    requires Queued(w) && Enabled(w, step)
    ensures QueueSound(w, l)
    ensures var q := Queue(w, l);
            forall a :: 0 <= a < |q| ==>
              q[a] < |w.ts| && (step.Request? || step.Unlock? ==> q[a] != step.thread)
              && (step.Grant? && (step.lock != l || a > 0) ==> q[a] != Queue(w, step.lock)[0])
  {
  }

  lemma StepQueued(w: World, step: Step)
    requires Queued(w) && Enabled(w, step)
    ensures Queued(Next(w, step))
  {
    hide Next, Enabled, InQueue, QueueSound;
    forall i | 0 <= i < |Next(w, step).ts| ensures InQueue(Next(w, step), i) { StepInQueue(w, step, i); }
    forall l ensures QueueSound(Next(w, step), l) { StepQueueSound(w, step, l); }
  }

  lemma StepExclusion(w: World, step: Step)
    requires Inv(w) && Enabled(w, step)
    ensures Exclusion(Next(w, step))
  {
    hide Ordered, Queued;
  }

  lemma StepKeepsInv(w: World, step: Step)
    requires Inv(w) && Enabled(w, step)
    ensures Inv(Next(w, step))
  {
    hide Ordered, Queued, Exclusion, Next;
    var w' := Next(w, step);
    forall i | 0 <= i < |w'.ts| ensures Ordered(w'.ts[i].held.Keys, w'.ts[i].todo) { StepOrdered(w, step, i); }
    StepQueued(w, step);
    StepExclusion(w, step);
  }

  /** A step of an operation under way, as against the arrival of a new one. */
  predicate Advances(w: World, step: Step) { Enabled(w, step) && !step.Spawn? }

  /** A blocked thread leads to a step: the head of the queue it waits in can be granted the
      lock, or some holder of the lock can move or waits for a lock of higher rank. */
  lemma {:induction false} SomeoneCanMove(w: World, i: nat) returns (step: Step)
    requires Inv(w) && i < |w.ts| && w.ts[i].todo != []
    ensures Advances(w, step)
    decreases if w.ts[i].todo[0].Acquire? then 2 - Rank(w.ts[i].todo[0].lock) else 0
  {
    if w.ts[i].todo[0].Release? {
      step := Unlock(i);
    } else if !w.ts[i].waiting {
      step := Request(i);
    } else {
      var l := w.ts[i].todo[0].lock;
      assert InQueue(w, i) && QueueSound(w, l);
      var first := Queue(w, l)[0];
      assert WaitsFor(w.ts[first], l);
      if Compatible(w, l, w.ts[first].todo[0].shared) {
        step := Grant(l);
      } else {
        var k: nat :| k < |w.ts| && l in w.ts[k].held;
        assert Ordered(w.ts[k].held.Keys, w.ts[k].todo);
        step := SomeoneCanMove(w, k);
      }
    }
  }

  lemma {:induction false} RunsKeepInv(w: World, steps: seq<Step>, w': World)
    requires Inv(w) && Runs(w, steps, w')
    ensures Inv(w')
    decreases |steps|
  {
    if steps != [] {
      hide Inv, Next, Enabled;
      StepKeepsInv(w, steps[0]);
      RunsKeepInv(Next(w, steps[0]), steps[1..], w');
    }
  }

  /** Deadlock freedom: in every state reachable by any interleaving of any number of
      operations, locks exclude as they should and, if any operation is unfinished, some
      operation can move. */
  lemma NeverDeadlocked(steps: seq<Step>, w: World)
    requires Runs(World([], map[]), steps, w)
    ensures Exclusion(w)
    ensures (exists i :: 0 <= i < |w.ts| && w.ts[i].todo != []) ==> exists step :: Advances(w, step)
  {
    RunsKeepInv(World([], map[]), steps, w);
    if i: nat :| i < |w.ts| && w.ts[i].todo != [] {
      var step := SomeoneCanMove(w, i);
    }
  }

  // --------------------------------------------------------- termination

  /** Steps still owed by a program: two for each lock to take (request, grant), one to release. */
  function Cost(todo: seq<Action>): nat {
    if todo == [] then 0 else (if todo[0].Acquire? then 2 else 1) + Cost(todo[1..])
  }

  function Left(t: Thread): nat {
    if t.waiting && Cost(t.todo) > 0 then Cost(t.todo) - 1 else Cost(t.todo)
  }

  function Work(ts: seq<Thread>): nat {
    if ts == [] then 0 else Left(ts[0]) + Work(ts[1..])
  }

  lemma {:induction false} WorkUpdate(ts: seq<Thread>, i: nat, t: Thread)
    requires i < |ts|
    ensures Work(ts[i := t]) == Work(ts) - Left(ts[i]) + Left(t)
  {
    if i > 0 {
      assert ts[i := t][1..] == ts[1..][i - 1 := t];
      WorkUpdate(ts[1..], i - 1, t);
    }
  }

  lemma StepWorks(w: World, step: Step)
    requires Inv(w) && Advances(w, step)
    ensures Work(Next(w, step).ts) == Work(w.ts) - 1
  {
    hide Ordered, Exclusion, Compatible, QueueSound;
    var i := if step.Grant? then Queue(w, step.lock)[0] else step.thread;
    assert InQueue(w, i);
    WorkUpdate(w.ts, i, Next(w, step).ts[i]);
  }

  lemma {:induction false} RunWorks(w: World, steps: seq<Step>, w': World)
    requires Inv(w) && Runs(w, steps, w') && forall i :: 0 <= i < |steps| ==> !steps[i].Spawn?
    ensures Inv(w') && |steps| + Work(w'.ts) == Work(w.ts)
    decreases |steps|
  {
    if steps != [] {
      hide Inv, Next, Enabled, Work;
      StepKeepsInv(w, steps[0]);
      StepWorks(w, steps[0]);
      RunWorks(Next(w, steps[0]), steps[1..], w');
    }
  }

  predicate Finished(t: Thread) { t.todo == [] && t.held == map[] && !t.waiting }

  /** Everyone finishes. In every reachable state, once no new operation arrives, no schedule is
      longer than the work then left, each step does one unit of it, and a schedule that cannot go
      on has finished every operation, with every lock released. */
  lemma EveryoneFinishes(steps: seq<Step>, mid: World, own: seq<Step>, w: World)
    requires Runs(World([], map[]), steps, mid) && Runs(mid, own, w)
    requires forall i :: 0 <= i < |own| ==> !own[i].Spawn?
    ensures |own| + Work(w.ts) == Work(mid.ts)
    ensures (forall step :: !Advances(w, step)) <==> Work(w.ts) == 0
    ensures Work(w.ts) == 0 ==> forall i :: 0 <= i < |w.ts| ==> Finished(w.ts[i])
  {
    hide Runs, Work;
    RunsKeepInv(World([], map[]), steps, mid);
    RunWorks(mid, own, w);
    if forall step :: !Advances(w, step) {
      forall i | 0 <= i < |w.ts| ensures w.ts[i].todo == [] {
        if w.ts[i].todo != [] { var step := SomeoneCanMove(w, i); }
      }
      AllDone(w.ts);
    }
    if Work(w.ts) == 0 {
      forall step ensures !Advances(w, step) {
        if Advances(w, step) { StepWorks(w, step); }
      }
      forall i | 0 <= i < |w.ts| ensures Finished(w.ts[i]) { NoWorkLeft(w, i); }
    }
  }

  lemma {:induction false} AllDone(ts: seq<Thread>)
    requires forall i :: 0 <= i < |ts| ==> ts[i].todo == []
    ensures Work(ts) == 0
  {
    if ts != [] { AllDone(ts[1..]); }
  }

  lemma NoWorkLeft(w: World, i: nat)
    requires Inv(w) && i < |w.ts| && Work(w.ts) == 0
    ensures Finished(w.ts[i])
  {
    var t := w.ts[i];
    WorkUpdate(w.ts, i, Thread(t.op, map[], [], false));
    assert InQueue(w, i) && Ordered(t.held.Keys, t.todo);
    assert t.waiting ==> Cost(t.todo) >= 2;
  }

  // ------------------------------------------------------------ exclusion

  /** Locks an operation has to itself: all but the drive table, and that too to change it. */
  predicate Alone(op: Operation, l: Lock) { l != Drives || op == MountOrUnmount }

  predicate Modes(t: Thread) {
    && (forall l :: l in t.held ==> t.held[l] == !Alone(t.op, l))
    && (forall a :: 0 <= a < |t.todo| && t.todo[a].Acquire? ==> t.todo[a].shared == !Alone(t.op, t.todo[a].lock))
  }

  lemma StepModes(w: World, step: Step, i: nat)
    requires Enabled(w, step) && i < |Next(w, step).ts| && forall j :: 0 <= j < |w.ts| ==> Modes(w.ts[j])
    ensures Modes(Next(w, step).ts[i])
  {
    hide Compatible, Queue;
    if i < |w.ts| { assert Modes(w.ts[i]); }
  }

  lemma {:induction false} RunModes(w: World, steps: seq<Step>, w': World, i: nat)
    requires Runs(w, steps, w') && i < |w'.ts| && forall j :: 0 <= j < |w.ts| ==> Modes(w.ts[j])
    ensures Modes(w'.ts[i])
    decreases |steps|
  {
    if steps != [] {
      hide Modes, Next, Enabled;
      var next := Next(w, steps[0]);
      forall j | 0 <= j < |next.ts| ensures Modes(next.ts[j]) { StepModes(w, steps[0], j); }
      RunModes(next, steps[1..], w', i);
    }
  }

  /** While the mount table is being changed nobody else looks at it, and every image, queue, flag
      table and printer is held by one operation at a time; lookups may go on together. */
  lemma HeldAlone(steps: seq<Step>, w: World, i: nat, j: nat, l: Lock)
    requires Runs(World([], map[]), steps, w) && i < |w.ts| && j < |w.ts| && i != j
    requires l in w.ts[i].held && l in w.ts[j].held
    ensures l == Drives && w.ts[i].op != MountOrUnmount && w.ts[j].op != MountOrUnmount
  {
    hide Runs;
    NeverDeadlocked(steps, w);
    RunModes(World([], map[]), steps, w, i);
    RunModes(World([], map[]), steps, w, j);
  }
}
