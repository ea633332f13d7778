/** Disk access under concurrency. Sessions look up a slot, take the image's lock, seek its
    one cursor, transfer in pieces and unlock, interleaved with mounts and unmounts. */
module DiskRace {
  import opened Proto
  import opened ServerSpec

  datatype Op = ReadOp | WriteOp(data: Sector)

  /** Program points of a session's disk access; Idle sessions are absent from the map. */
  datatype Access =
    | Looked(h: nat, lsn: Lsn, op: Op)
    | Holding(h: nat, lsn: Lsn, op: Op)
    | Moving(h: nat, lsn: Lsn, op: Op, done: nat, buf: seq<Byte>)

  datatype World = World(
    files: map<FileId, seq<Byte>>,
    names: map<Path, FileId>,
    handles: seq<Handle>,            // every image opened so far, each with its own
    cursors: seq<nat>,               //   cursor
    locks: seq<Option<nat>>,         //   and lock (the session holding it)
    drives: map<Byte, nat>,          // slot -> handle
    sessions: map<nat, Access>)

  datatype Step =
    | Mount(slot: Byte, path: Path, readOnly: bool)
    | Unmount(slot: Byte)
    | Relink(path: Path, target: Option<FileId>)
    | Lookup(s: nat, slot: Byte, lsn: Lsn, op: Op)
    | Lock(s: nat)
    | Seek(s: nat)
    | Transfer(s: nat, n: nat)
    | Release(s: nat)

  predicate Allowed(w: World, h: nat, lsn: Lsn, op: Op) {
    h < |w.handles| && lsn < w.handles[h].sectorCount && (op.WriteOp? ==> !w.handles[h].readOnly)
  }

  predicate Enabled(w: World, step: Step) {
    match step
    case Mount(_, path, _) => path in w.names
    case Unmount(_) => true
    case Relink(_, _) => true
    case Lookup(s, slot, lsn, op) => s !in w.sessions && slot in w.drives && Allowed(w, w.drives[slot], lsn, op)
    case Lock(s) => s in w.sessions && w.sessions[s].Looked?
                    && w.sessions[s].h < |w.locks| && w.locks[w.sessions[s].h] == None
    case Seek(s) => s in w.sessions && w.sessions[s].Holding?
    case Transfer(s, n) => s in w.sessions && w.sessions[s].Moving? && 0 < n && w.sessions[s].done + n <= SECTOR_SIZE
    case Release(s) => s in w.sessions && w.sessions[s].Moving? && w.sessions[s].done == SECTOR_SIZE
  }

  /** Overwrites bytes at an offset. */
  function Splice(content: seq<Byte>, at: nat, bytes: seq<Byte>): (r: seq<Byte>)
    requires at + |bytes| <= |content|
    ensures |r| == |content|
  {
    content[..at] + bytes + content[at + |bytes|..]
  }

  function Next(w: World, step: Step): World
    requires Shaped(w) && Enabled(w, step)
  {
    match step
    case Mount(slot, path, readOnly) =>
      w.(handles := w.handles + [Opened(w.files, w.names, path, readOnly)],
         cursors := w.cursors + [0], locks := w.locks + [None],
         drives := w.drives[slot := |w.handles|])
    case Unmount(slot) => w.(drives := w.drives - {slot})
    case Relink(path, target) => w.(names := Relinked(w.files, w.names, path, target))
    case Lookup(s, slot, lsn, op) => w.(sessions := w.sessions[s := Looked(w.drives[slot], lsn, op)])
    case Lock(s) =>
      var a := w.sessions[s];
      w.(locks := w.locks[a.h := Some(s)], sessions := w.sessions[s := Holding(a.h, a.lsn, a.op)])
    case Seek(s) =>
      var a := w.sessions[s];
      w.(cursors := w.cursors[a.h := a.lsn * SECTOR_SIZE],
         sessions := w.sessions[s := Moving(a.h, a.lsn, a.op, 0, [])])
    case Transfer(s, n) =>
      var a := w.sessions[s];
      var f, at := w.handles[a.h].file, w.cursors[a.h];
      if at + n > |w.files[f]| then w // past the end: the transfer would fail
      else if a.op.ReadOp? then
        w.(cursors := w.cursors[a.h := at + n],
           sessions := w.sessions[s := a.(done := a.done + n, buf := a.buf + w.files[f][at..at + n])])
      else
        w.(cursors := w.cursors[a.h := at + n],
           files := w.files[f := Splice(w.files[f], at, a.op.data[a.done..a.done + n])],
           sessions := w.sessions[s := a.(done := a.done + n)])
    case Release(s) => w.(locks := w.locks[w.sessions[s].h := None], sessions := w.sessions - {s})
  }

  predicate Sane(w: World, s: nat)
    requires s in w.sessions
  {
    var a := w.sessions[s];
    Allowed(w, a.h, a.lsn, a.op) && (a.Moving? ==> a.done <= SECTOR_SIZE)
  }

  /** Structural facts that hold of every reachable state whatever is mounted. */
  predicate Shaped(w: World) {
    && |w.cursors| == |w.handles| && |w.locks| == |w.handles|
    && Resolves(w.files, w.names)
    && (forall h :: 0 <= h < |w.handles| ==> Fits(w.files, w.handles[h]))
    && (forall slot :: slot in w.drives ==> w.drives[slot] < |w.handles|)
    && (forall s :: s in w.sessions ==> Sane(w, s))
  }

  /** A session past Lock is the holder of its image's lock, and while it transfers the
      cursor is where its own seek and transfers put it. */
  predicate Owns(w: World, s: nat)
    requires Shaped(w) && s in w.sessions
  {
    var a := w.sessions[s];
    && (!a.Looked? ==> w.locks[a.h] == Some(s))
    && (a.Moving? ==> w.cursors[a.h] == a.lsn * SECTOR_SIZE + a.done)
  }

  predicate HeldProperly(w: World, h: nat)
    requires Shaped(w) && h < |w.handles|
  {
    w.locks[h].Some? ==>
      var s := w.locks[h].value;
      s in w.sessions && !w.sessions[s].Looked? && w.sessions[s].h == h
  }

  predicate Disciplined(w: World) {
    && Shaped(w)
    && (forall s :: s in w.sessions ==> Owns(w, s))
    && (forall h :: 0 <= h < |w.handles| ==> HeldProperly(w, h))
  }

  lemma StepSane(w: World, step: Step, s: nat)
    requires Shaped(w) && Enabled(w, step) && s in Next(w, step).sessions
    ensures Sane(Next(w, step), s)
  {
    NextFrame(w, step);
    if s in w.sessions && !ActsFor(step, s) {
      hide Next, Fits, Resolves;
      assert Sane(w, s);
    } else {
      OwnStepSane(w, step);
    }
  }

  lemma OwnStepSane(w: World, step: Step)
    requires Shaped(w) && Enabled(w, step)
    ensures step.Lookup? || step.Lock? || step.Seek? || step.Transfer? ==>
              step.s in Next(w, step).sessions && Sane(Next(w, step), step.s)
  {
    hide Splice, SectorCount, Relinked, Opened, Fits, Resolves;
    if step.Lock? || step.Seek? || step.Transfer? { assert Sane(w, step.s); }
  }

  lemma StepSizes(w: World, step: Step)
    requires Shaped(w) && Enabled(w, step)
    ensures var w' := Next(w, step);
            |w'.cursors| == |w'.handles| && |w'.locks| == |w'.handles|
            && forall slot :: slot in w'.drives ==> w'.drives[slot] < |w'.handles|
  {
    hide Splice, SectorCount, Relinked, Opened, Fits, Resolves;
  }

  lemma StepShaped(w: World, step: Step)
    requires Shaped(w) && Enabled(w, step)
    ensures Shaped(Next(w, step))
  {
    hide Next, Fits, Resolves, Sane;
    StepFits(w, step);
    StepSizes(w, step);
    forall s | s in Next(w, step).sessions ensures Sane(Next(w, step), s) { StepSane(w, step, s); }
  }

  /** No step shortens a file or loses one. */
  lemma StepFits(w: World, step: Step)
    requires Shaped(w) && Enabled(w, step)
    ensures var w' := Next(w, step);
            Resolves(w'.files, w'.names) && forall h :: 0 <= h < |w'.handles| ==> Fits(w'.files, w'.handles[h])
  {
    hide Splice, SectorCount, Relinked, Opened;
    if step.Transfer? { assert Sane(w, step.s) && Fits(w.files, w.handles[w.sessions[step.s].h]); }
  }

  /** Steps of an access already begun. */
  predicate Acts(step: Step) { step.Lock? || step.Seek? || step.Transfer? || step.Release? }

  predicate ActsFor(step: Step, t: nat) { Acts(step) && step.s == t }

  /** What a step cannot touch: other sessions, and the lock and cursor of other images. */
  lemma NextFrame(w: World, step: Step)
    requires Shaped(w) && Enabled(w, step)
    ensures var w' := Next(w, step);
            w.handles <= w'.handles
            && (!step.Transfer? ==> w'.files == w.files)
            && (!step.Mount? ==> w'.handles == w.handles)
            && (!step.Lock? && !step.Release? ==> w.locks <= w'.locks)
            && (!step.Seek? && !step.Transfer? ==> w.cursors <= w'.cursors)
            && (forall t :: t in w.sessions && !ActsFor(step, t) ==>
                  t in w'.sessions && w'.sessions[t] == w.sessions[t])
            && (forall t :: t in w'.sessions && t !in w.sessions ==> w'.sessions[t].Looked?)
  {
    hide Splice, SectorCount, Fits;
    assert step.Lookup? ==> step.s !in w.sessions;
  }

  lemma NextElsewhere(w: World, step: Step, h: nat)
    requires Shaped(w) && Enabled(w, step) && h < |w.handles|
    requires Acts(step) ==> w.sessions[step.s].h != h
    ensures var w' := Next(w, step);
            Shaped(w') && h < |w'.handles| && w'.locks[h] == w.locks[h] && w'.cursors[h] == w.cursors[h]
  {
    hide Splice, SectorCount, Fits, Sane;
    StepShaped(w, step);
  }

  lemma OwnsAfterOwnStep(w: World, step: Step)
    requires Disciplined(w) && Enabled(w, step) && (step.Lock? || step.Seek? || step.Transfer?)
    ensures var w' := Next(w, step); Shaped(w') && step.s in w'.sessions && Owns(w', step.s)
    ensures var w' := Next(w, step); w'.sessions[step.s].h == w.sessions[step.s].h && !w'.sessions[step.s].Looked?
  {
    hide Splice, SectorCount, HeldProperly, Fits;
    StepShaped(w, step);
    assert Owns(w, step.s) && Sane(w, step.s);
    if step.Transfer? {
      hide Next;
      TransferEffect(w, step.s, step.n);
    }
  }

  /** Two sessions past Lock never share an image. */
  lemma ActorsApart(w: World, step: Step, t: nat)
    requires Disciplined(w) && Enabled(w, step) && Acts(step) && t in w.sessions && t != step.s
    requires !w.sessions[t].Looked?
    ensures w.sessions[step.s].h != w.sessions[t].h
  {
  }

  lemma StepOwns(w: World, step: Step, s: nat)
    requires Disciplined(w) && Enabled(w, step) && s in Next(w, step).sessions
    ensures Shaped(Next(w, step)) && Owns(Next(w, step), s)
  {
    StepShaped(w, step);
    if ActsFor(step, s) {
      if !step.Release? { OwnsAfterOwnStep(w, step); }
    } else {
      hide Next, Fits, HeldProperly;
      NextFrame(w, step);
      if s in w.sessions && !w.sessions[s].Looked? {
        assert Owns(w, s) && Sane(w, s);
        if Acts(step) { ActorsApart(w, step, s); }
        NextElsewhere(w, step, w.sessions[s].h);
      }
    }
  }

  lemma StepHeldByActor(w: World, step: Step)
    requires Disciplined(w) && Enabled(w, step) && (step.Lock? || step.Seek? || step.Transfer?)
    ensures var h := w.sessions[step.s].h;
            Shaped(Next(w, step)) && h < |Next(w, step).handles| && HeldProperly(Next(w, step), h)
  {
    hide Next, Fits, HeldProperly;
    OwnsAfterOwnStep(w, step);
    var w' := Next(w, step);
    assert Sane(w', step.s);
    HolderIsProper(w', step.s);
  }

  lemma HolderIsProper(w: World, s: nat)
    requires Shaped(w) && s in w.sessions && Sane(w, s) && Owns(w, s) && !w.sessions[s].Looked?
    ensures HeldProperly(w, w.sessions[s].h)
  {
  }

  lemma StepHeldElsewhere(w: World, step: Step, h: nat)
    requires Disciplined(w) && Enabled(w, step) && h < |w.handles|
    requires Acts(step) ==> w.sessions[step.s].h != h
    ensures Shaped(Next(w, step)) && h < |Next(w, step).handles| && HeldProperly(Next(w, step), h)
  {
    hide Next, Fits, Owns;
    NextFrame(w, step);
    NextElsewhere(w, step, h);
    assert HeldProperly(w, h);
  }

  lemma StepHeld(w: World, step: Step, h: nat)
    requires Disciplined(w) && Enabled(w, step) && h < |Next(w, step).handles|
    ensures Shaped(Next(w, step)) && HeldProperly(Next(w, step), h)
  {
    hide Next, Fits, Owns, Sane;
    StepShaped(w, step);
    NextFrame(w, step);
    if h >= |w.handles| || (step.Release? && w.sessions[step.s].h == h) {
      NewOrFreed(w, step, h);
    } else if Acts(step) && w.sessions[step.s].h == h {
      StepHeldByActor(w, step);
    } else {
      StepHeldElsewhere(w, step, h);
    }
  }

  lemma NewOrFreed(w: World, step: Step, h: nat)
    requires Shaped(w) && Enabled(w, step) && h < |Next(w, step).handles|
    requires h >= |w.handles| || (step.Release? && w.sessions[step.s].h == h)
    ensures h < |Next(w, step).locks| && Next(w, step).locks[h] == None
  {
  }

  lemma StepDisciplined(w: World, step: Step)
    requires Disciplined(w) && Enabled(w, step)
    ensures Disciplined(Next(w, step))
  {
    hide Next, Enabled, Shaped, Owns, HeldProperly;
    StepShaped(w, step);
    var w' := Next(w, step);
    forall s | s in w'.sessions ensures Owns(w', s) { StepOwns(w, step, s); }
    forall h | 0 <= h < |w'.handles| ensures HeldProperly(w', h) { StepHeld(w, step, h); }
  }

  // ------------------------------------------------------------------ runs

  ghost predicate Runs(w: World, steps: seq<Step>, w': World)
    decreases |steps|
  {
    if steps == [] then w' == w
    else Disciplined(w) && Enabled(w, steps[0]) && Runs(Next(w, steps[0]), steps[1..], w')
  }

  lemma {:induction false} RunsConcat(a: World, s1: seq<Step>, b: World, s2: seq<Step>, c: World)
    requires Runs(a, s1, b) && Runs(b, s2, c)
    ensures Runs(a, s1 + s2, c)
    decreases |s1|
  {
    if s1 == [] {
      assert s1 + s2 == s2;
    } else {
      hide Next, Disciplined, Enabled;
      assert (s1 + s2)[1..] == s1[1..] + s2;
      RunsConcat(Next(a, s1[0]), s1[1..], b, s2, c);
    }
  }

  lemma RunOne(w: World, step: Step)
    requires Disciplined(w) && Enabled(w, step)
    ensures Runs(w, [step], Next(w, step))
  {
  }

  lemma DisciplinedShape(w: World)
    requires Disciplined(w)
    ensures Shaped(w)
  {
  }

  lemma TransferFiles(w: World, s: nat, n: nat, f: FileId)
    requires Shaped(w) && Enabled(w, Transfer(s, n)) && f in w.files && f != w.handles[w.sessions[s].h].file
    ensures f in Next(w, Transfer(s, n)).files && Next(w, Transfer(s, n)).files[f] == w.files[f]
  {
  }

  /** The acting session and its file around a transfer. */
  lemma TransferEffect(w: World, s: nat, n: nat)
    requires Disciplined(w) && Enabled(w, Transfer(s, n))
    ensures var a := w.sessions[s];
            var w' := Next(w, Transfer(s, n));
            var f, at := w.handles[a.h].file, a.lsn * SECTOR_SIZE + a.done;
            s in w'.sessions && f in w.files && f in w'.files && at + n <= |w.files[f]|
            && w'.handles == w.handles && w'.locks == w.locks && w.locks[a.h] == Some(s)
            && w'.cursors == w.cursors[a.h := at + n]
            && w'.sessions[s] == a.(done := a.done + n,
                                    buf := if a.op.ReadOp? then a.buf + w.files[f][at..at + n] else a.buf)
            && w'.files[f] == if a.op.ReadOp? then w.files[f]
                                 else Splice(w.files[f], at, a.op.data[a.done..a.done + n])
  {
    hide Splice, HeldProperly;
    assert Owns(w, s) && Sane(w, s) && Fits(w.files, w.handles[w.sessions[s].h]);
  }

  /** Session `s` is inside an access of sector `lsn` of image `h`, and holds what it should. */
  predicate Inside(w: World, s: nat, h: nat, lsn: Lsn, op: Op) {
    && s in w.sessions && h < |w.handles|
    && w.sessions[s].h == h && w.sessions[s].lsn == lsn && w.sessions[s].op == op
  }

  lemma StepInside(w: World, step: Step, s: nat, h: nat, lsn: Lsn, op: Op)
    requires Disciplined(w) && Enabled(w, step) && Inside(w, s, h, lsn, op) && step != Release(s)
    ensures Inside(Next(w, step), s, h, lsn, op) && Next(w, step).handles[h] == w.handles[h]
  {
    hide Owns, HeldProperly, Fits, Splice;
    NextFrame(w, step);
    if ActsFor(step, s) {
      assert step.Lock? || step.Seek? || step.Transfer?;
    } else {
      hide Next;
    }
  }

  lemma {:induction false} RunInside(w: World, steps: seq<Step>, w': World, s: nat, h: nat, lsn: Lsn, op: Op)
    requires Disciplined(w) && Inside(w, s, h, lsn, op) && Runs(w, steps, w') && Release(s) !in steps
    ensures Disciplined(w') && Inside(w', s, h, lsn, op) && w'.handles[h] == w.handles[h]
    decreases |steps|
  {
    if steps != [] {
      hide Next, Disciplined, Enabled, Inside;
      StepDisciplined(w, steps[0]);
      StepInside(w, steps[0], s, h, lsn, op);
      RunInside(Next(w, steps[0]), steps[1..], w', s, h, lsn, op);
    }
  }

  /** A whole access, from the lookup of its slot until it releases: through every interleaving
      of other sessions, mounts and unmounts, of that slot too, it stays on the image that was
      mounted at the lookup, with its lock held once taken and its cursor where it left it. */
  lemma AccessNotRedirected(w: World, s: nat, slot: Byte, lsn: Lsn, op: Op, steps: seq<Step>, w': World)
    requires Disciplined(w) && Runs(w, [Lookup(s, slot, lsn, op)] + steps, w') && Release(s) !in steps
    ensures slot in w.drives && Inside(w', s, w.drives[slot], lsn, op)
    ensures w.drives[slot] < |w.handles| && w'.handles[w.drives[slot]] == w.handles[w.drives[slot]]
    ensures var h, a := w.drives[slot], w'.sessions[s];
            h < |w'.locks| && h < |w'.cursors|
            && (!a.Looked? ==> w'.locks[h] == Some(s))
            && (a.Moving? ==> w'.cursors[h] == lsn * SECTOR_SIZE + a.done)
  {
    var look, all := Lookup(s, slot, lsn, op), [Lookup(s, slot, lsn, op)] + steps;
    assert all[0] == look && all[1..] == steps;
    var h := w.drives[slot];
    var w1 := Next(w, look);
    StepDisciplined(w, look);
    assert Inside(w1, s, h, lsn, op);
    RunInside(w1, steps, w', s, h, lsn, op);
    assert Owns(w', s);
  }
}
