/** When concurrent disk accesses amount to whole-sector operations. The condition is that no
    sector of a file can be written through one handle while another handle reaches it. */
module DiskAtomic {
  import opened Proto
  import opened ServerSpec
  import opened DiskRace

  // ------------------------------------------------------------- conflicts

  /** Still has bytes to move. */
  predicate Pending(a: Access) { !(a.Moving? && a.done == SECTOR_SIZE) }

  /** An access under way may touch sector l through image h (and write it, if `writes`). */
  predicate SessionUses(w: World, s: nat, h: nat, l: Lsn, writes: bool) {
    s in w.sessions && Pending(w.sessions[s]) && w.sessions[s].h == h && w.sessions[s].lsn == l
    && (writes ==> w.sessions[s].op.WriteOp?)
  }

  /** Whoever looks up this slot may. */
  predicate SlotUses(w: World, slot: Byte, h: nat, l: Lsn, writes: bool) {
    slot in w.drives && w.drives[slot] == h && h < |w.handles| && l < w.handles[h].sectorCount
    && (writes ==> !w.handles[h].readOnly)
  }

  ghost predicate Uses(w: World, h: nat, l: Lsn, writes: bool) {
    (exists s: nat :: SessionUses(w, s, h, l, writes)) || (exists slot: Byte :: SlotUses(w, slot, h, l, writes))
  }

  ghost predicate Clash(w: World, i: nat, j: nat, l: Lsn) {
    i != j && i < |w.handles| && j < |w.handles| && w.handles[i].file == w.handles[j].file
    && Uses(w, i, l, true) && Uses(w, j, l, false)
  }

  /** Two handles in use reach one sector of one file, and one of them may write it. A handle
      that is unmounted and that no access still holds does not count, nor do readers alone. */
  ghost predicate Conflict(w: World) { exists i: nat, j: nat, l: Lsn :: Clash(w, i, j, l) }

  lemma StepUses(w: World, step: Step, h: nat, l: Lsn, writes: bool)
    requires Shaped(w) && Enabled(w, step) && !step.Mount? && Uses(Next(w, step), h, l, writes)
    ensures Uses(w, h, l, writes)
  {
    hide Splice, Fits, Sane, SectorCount;
    var w' := Next(w, step);
    if s: nat :| SessionUses(w', s, h, l, writes) {
      if s in w.sessions {
        assert SessionUses(w, s, h, l, writes);
      } else {
        assert SlotUses(w, step.slot, h, l, writes);
      }
    } else {
      var slot: Byte :| SlotUses(w', slot, h, l, writes);
      assert SlotUses(w, slot, h, l, writes);
    }
  }

  /** Only a mount can bring a conflict about. */
  lemma ConflictOnlyByMount(w: World, step: Step)
    requires Shaped(w) && Enabled(w, step) && !step.Mount? && Conflict(Next(w, step))
    ensures Conflict(w)
  {
    hide Uses, Next;
    NextFrame(w, step);
    var i: nat, j: nat, l: Lsn :| Clash(Next(w, step), i, j, l);
    StepUses(w, step, i, l, true);
    StepUses(w, step, j, l, false);
    assert Clash(w, i, j, l);
  }

  lemma UsesWeaken(w: World, h: nat, l: Lsn, writes: bool)
    requires Uses(w, h, l, true)
    ensures Uses(w, h, l, writes)
  {
    if s: nat :| SessionUses(w, s, h, l, true) {
      assert SessionUses(w, s, h, l, writes);
    } else {
      var slot: Byte :| SlotUses(w, slot, h, l, true);
      assert SlotUses(w, slot, h, l, writes);
    }
  }

  /** The handles in use by all but one slot. */
  function Without(w: World, slot: Byte): World { w.(drives := w.drives - {slot}) }

  lemma MountUses(w: World, step: Step, h: nat, l: Lsn, writes: bool)
    requires Shaped(w) && Enabled(w, step) && step.Mount? && h < |w.handles|
    ensures Uses(Next(w, step), h, l, writes) <==> Uses(Without(w, step.slot), h, l, writes)
    ensures Uses(Without(w, step.slot), h, l, writes) ==> Uses(w, h, l, writes)
  {
    hide SectorCount, Fits, Sane;
    var w', v := Next(w, step), Without(w, step.slot);
    if s: nat :| SessionUses(w', s, h, l, writes) { assert SessionUses(v, s, h, l, writes); }
    if s: nat :| SessionUses(v, s, h, l, writes) {
      assert SessionUses(w', s, h, l, writes) && SessionUses(w, s, h, l, writes);
    }
    if slot: Byte :| SlotUses(w', slot, h, l, writes) { assert SlotUses(v, slot, h, l, writes); }
    if slot: Byte :| SlotUses(v, slot, h, l, writes) {
      assert SlotUses(w', slot, h, l, writes) && SlotUses(w, slot, h, l, writes);
    }
  }

  lemma NewHandleUses(w: World, step: Step, l: Lsn, writes: bool)
    requires Shaped(w) && Enabled(w, step) && step.Mount?
    ensures Uses(Next(w, step), |w.handles|, l, writes) <==>
            l < SectorCount(|w.files[w.names[step.path]]|) && (writes ==> !step.readOnly)
  {
    hide SectorCount, Fits;
    var w', n := Next(w, step), |w.handles|;
    if l < SectorCount(|w.files[w.names[step.path]]|) && (writes ==> !step.readOnly) {
      assert SlotUses(w', step.slot, n, l, writes);
    }
    if s: nat :| SessionUses(w', s, n, l, writes) { assert Sane(w, s); }
  }

  /** Some other handle in use reaches a sector of the file, for writing if the mount is to be
      read-only. */
  ghost predicate MountClashes(w: World, slot: Byte, path: Path, readOnly: bool)
    requires Resolves(w.files, w.names) && path in w.names
  {
    exists h: nat, l: Lsn ::
      h < |w.handles| && w.handles[h].file == w.names[path] && l < SectorCount(|w.files[w.names[path]]|)
      && Uses(Without(w, slot), h, l, readOnly)
  }

  lemma OldClash(w: World, step: Step, i: nat, j: nat, l: Lsn)
    requires Shaped(w) && Enabled(w, step) && step.Mount? && i < |w.handles| && j < |w.handles|
    requires Clash(Next(w, step), i, j, l)
    ensures Conflict(w)
  {
    hide Uses, SectorCount, Fits, Sane;
    MountUses(w, step, i, l, true);
    MountUses(w, step, j, l, false);
    assert Clash(w, i, j, l);
  }

  /** When a mount brings a conflict about, exactly, in terms of the state before it. */
  lemma MountConflictIff(w: World, slot: Byte, path: Path, readOnly: bool)
    requires Shaped(w) && !Conflict(w) && path in w.names
    ensures Conflict(Next(w, Step.Mount(slot, path, readOnly))) <==> MountClashes(w, slot, path, readOnly)
  {
    hide Uses, SectorCount, Fits, Sane;
    var step, n := Step.Mount(slot, path, readOnly), |w.handles|;
    var w', v := Next(w, step), Without(w, slot);
    if MountClashes(w, slot, path, readOnly) {
      var h: nat, l: Lsn :|
        h < |w.handles| && w.handles[h].file == w.names[path] && l < SectorCount(|w.files[w.names[path]]|)
        && Uses(v, h, l, readOnly);
      MountUses(w, step, h, l, readOnly);
      NewHandleUses(w, step, l, !readOnly);
      assert if readOnly then Clash(w', h, n, l) else Clash(w', n, h, l);
    }
    if Conflict(w') {
      var i: nat, j: nat, l: Lsn :| Clash(w', i, j, l);
      NewHandleUses(w, step, l, true);
      NewHandleUses(w, step, l, false);
      if i < n && j < n { OldClash(w, step, i, j, l); }
      if i < n {
        MountUses(w, step, i, l, true);
        UsesWeaken(v, i, l, readOnly);
      }
      if j < n { MountUses(w, step, j, l, false); }
    }
  }

  lemma SharingIsConflict(w: World, s: nat, t: nat)
    requires Disciplined(w) && s in w.sessions && t in w.sessions && s != t
    requires var a, b := w.sessions[s], w.sessions[t];
             a.Moving? && a.done < SECTOR_SIZE && a.op.WriteOp? && b.Moving? && b.done < SECTOR_SIZE
    requires var a, b := w.sessions[s], w.sessions[t];
             a.h < |w.handles| && b.h < |w.handles| && a.lsn == b.lsn && w.handles[a.h].file == w.handles[b.h].file
    ensures Conflict(w)
  {
    hide Fits;
    var a, b := w.sessions[s], w.sessions[t];
    assert Owns(w, s) && Owns(w, t);
    assert SessionUses(w, s, a.h, a.lsn, true) && SessionUses(w, t, b.h, b.lsn, false);
    assert Clash(w, a.h, b.h, a.lsn);
  }

  /** Without a conflict, an access that is writing a sector has it to itself. */
  lemma AloneOnSector(w: World, s: nat, t: nat)
    requires Disciplined(w) && !Conflict(w) && s in w.sessions && t in w.sessions && s != t
    requires var a, b := w.sessions[s], w.sessions[t];
             a.Moving? && a.done < SECTOR_SIZE && a.op.WriteOp? && b.Moving? && b.done < SECTOR_SIZE
    ensures var a, b := w.sessions[s], w.sessions[t];
            a.h < |w.handles| && b.h < |w.handles|
            && (a.lsn != b.lsn || w.handles[a.h].file != w.handles[b.h].file)
  {
    hide Fits, Conflict, Owns;
    var a, b := w.sessions[s], w.sessions[t];
    assert Sane(w, s) && Sane(w, t);
    if a.lsn == b.lsn && w.handles[a.h].file == w.handles[b.h].file { SharingIsConflict(w, s, t); }
  }

  // --------------------------------------------------- the abstract store

  type Store = map<FileId, seq<seq<Byte>>>

  /** Specification: sectors by file, read and written whole. */
  datatype Atom =
    | ARead(file: FileId, lsn: Lsn, result: seq<Byte>)
    | AWrite(file: FileId, lsn: Lsn, data: Sector)

  predicate Holds(store: Store, file: FileId, lsn: nat) { file in store && lsn < |store[file]| }

  function Put(store: Store, file: FileId, lsn: nat, data: Sector): Store
    requires Holds(store, file, lsn)
  {
    store[file := store[file][lsn := data]]
  }

  predicate Atomic(store: Store, atoms: seq<Atom>, store': Store)
    decreases |atoms|
  {
    if atoms == [] then store' == store
    else
      Holds(store, atoms[0].file, atoms[0].lsn) &&
      match atoms[0]
      case ARead(file, lsn, result) => store[file][lsn] == result && Atomic(store, atoms[1..], store')
      case AWrite(file, lsn, data) => Atomic(Put(store, file, lsn, data), atoms[1..], store')
  }

  lemma {:induction false} AtomicConcat(a: Store, xs: seq<Atom>, b: Store, ys: seq<Atom>, c: Store)
    requires Atomic(a, xs, b) && Atomic(b, ys, c)
    ensures Atomic(a, xs + ys, c)
    decreases |xs|
  {
    if xs == [] {
      assert xs + ys == ys;
    } else {
      assert (xs + ys)[1..] == xs[1..] + ys;
      var next := if xs[0].ARead? then a else Put(a, xs[0].file, xs[0].lsn, xs[0].data);
      AtomicConcat(next, xs[1..], b, ys, c);
    }
  }

  /** The whole sectors of a file. */
  function Sectors(content: seq<Byte>): (r: seq<seq<Byte>>)
    ensures |r| == |content| / SECTOR_SIZE
  {
    seq(|content| / SECTOR_SIZE, l requires 0 <= l < |content| / SECTOR_SIZE => SectorAt(content, l))
  }

  function FileSectors(files: map<FileId, seq<Byte>>): Store {
    map f | f in files :: Sectors(files[f])
  }

  /** Session s has begun to write sector l of file f and has not finished. */
  predicate Writing(w: World, s: nat, f: FileId, l: nat) {
    s in w.sessions && w.sessions[s].Moving? && w.sessions[s].done < SECTOR_SIZE && w.sessions[s].op.WriteOp?
    && w.sessions[s].lsn == l && w.sessions[s].h < |w.handles| && w.handles[w.sessions[s].h].file == f
  }

  /** A sector as whole-sector operations see it: a write that has begun counts as done. */
  ghost function SectorView(w: World, f: FileId, l: nat): Sector
    requires f in w.files && l < |w.files[f]| / SECTOR_SIZE
  {
    if exists s :: Writing(w, s, f, l) then
      var s :| Writing(w, s, f, l);
      w.sessions[s].op.data
    else SectorAt(w.files[f], l)
  }

  ghost function View(w: World): (store: Store)
    ensures store.Keys == w.files.Keys
    ensures forall f :: f in w.files ==> |store[f]| == |w.files[f]| / SECTOR_SIZE
    ensures forall f, l :: f in w.files && 0 <= l < |w.files[f]| / SECTOR_SIZE ==> store[f][l] == SectorView(w, f, l)
  {
    map f | f in w.files ::
      seq(|w.files[f]| / SECTOR_SIZE, l requires 0 <= l < |w.files[f]| / SECTOR_SIZE => SectorView(w, f, l))
  }

  /** The whole-sector operation a step amounts to, if any: a write takes effect when its
      session seeks, a read when its last byte arrives. */
  function AtomOf(w: World, step: Step): seq<Atom>
    requires Shaped(w) && Enabled(w, step)
  {
    match step
    case Seek(s) =>
      var a := w.sessions[s];
      if a.op.WriteOp? then [AWrite(w.handles[a.h].file, a.lsn, a.op.data)] else []
    case Transfer(s, n) =>
      var a := w.sessions[s];
      if a.op.ReadOp? && a.done + n == SECTOR_SIZE
      then [ARead(w.handles[a.h].file, a.lsn, Next(w, step).sessions[s].buf)] else []
    case _ => []
  }

  ghost function Atoms(w: World, steps: seq<Step>, w': World): seq<Atom>
    requires Runs(w, steps, w')
    decreases |steps|
  {
    if steps == [] then []
    else AtomOf(w, steps[0]) + Atoms(Next(w, steps[0]), steps[1..], w')
  }

  // ------------------------------------------------------------- invariant

  /** What a transfer in progress has done so far agrees with the file's content. */
  predicate Progress(a: Access, content: seq<Byte>)
    requires a.Moving?
  {
    var at := a.lsn * SECTOR_SIZE;
    at + SECTOR_SIZE <= |content| && a.done <= SECTOR_SIZE &&
    match a.op
    case ReadOp => a.buf == content[at..at + a.done]
    case WriteOp(data) => content[at..at + a.done] == data[..a.done]
  }

  predicate Faithful(w: World, s: nat)
    requires Disciplined(w) && s in w.sessions
  {
    assert Sane(w, s);
    w.sessions[s].Moving? && w.sessions[s].done < SECTOR_SIZE ==>
      Progress(w.sessions[s], w.files[w.handles[w.sessions[s].h].file])
  }

  ghost predicate Inv(w: World) {
    Disciplined(w) && !Conflict(w) && forall s :: s in w.sessions ==> Faithful(w, s)
  }

  lemma ViewOfWriter(w: World, s: nat, f: FileId, l: nat)
    requires Disciplined(w) && !Conflict(w) && Writing(w, s, f, l) && f in w.files && l < |w.files[f]| / SECTOR_SIZE
    ensures SectorView(w, f, l) == w.sessions[s].op.data
  {
    hide Disciplined, Conflict;
    forall t | Writing(w, t, f, l) ensures t == s {
      if t != s { AloneOnSector(w, s, t); }
    }
  }

  // ------------------------------------------------------------ refinement

  /** The step begins or carries on a write of sector l of file f. */
  predicate Touches(w: World, step: Step, f: FileId, l: nat)
    requires Shaped(w) && Enabled(w, step)
  {
    (step.Seek? || step.Transfer?) &&
    var a := w.sessions[step.s];
    a.op.WriteOp? && a.lsn == l && w.handles[a.h].file == f
  }

  lemma WritersElsewhere(w: World, step: Step, t: nat, f: FileId, l: nat)
    requires Shaped(w) && Enabled(w, step) && !Touches(w, step, f, l)
    ensures Writing(Next(w, step), t, f, l) <==> Writing(w, t, f, l)
    ensures Writing(w, t, f, l) ==> Next(w, step).sessions[t].op == w.sessions[t].op
  {
    hide Splice, Fits, SectorCount;
  }

  lemma FilesKeepShape(w: World, step: Step)
    requires Shaped(w) && Enabled(w, step)
    ensures Next(w, step).files.Keys == w.files.Keys
    ensures forall f :: f in w.files ==> |Next(w, step).files[f]| == |w.files[f]|
  {
  }

  lemma SpliceElsewhere(content: seq<Byte>, lsn: nat, done: nat, bytes: seq<Byte>, l: nat)
    requires done + |bytes| <= SECTOR_SIZE && lsn * SECTOR_SIZE + SECTOR_SIZE <= |content|
    requires l != lsn && l * SECTOR_SIZE + SECTOR_SIZE <= |content|
    ensures SectorAt(Splice(content, lsn * SECTOR_SIZE + done, bytes), l) == SectorAt(content, l)
  {
    assert l < lsn ==> l * SECTOR_SIZE + SECTOR_SIZE <= lsn * SECTOR_SIZE;
    assert l > lsn ==> lsn * SECTOR_SIZE + SECTOR_SIZE <= l * SECTOR_SIZE;
  }

  lemma FilesElsewhere(w: World, step: Step, f: FileId, l: nat)
    requires Disciplined(w) && Enabled(w, step) && (step.Transfer? ==> !Touches(w, step, f, l))
    requires f in w.files && l < |w.files[f]| / SECTOR_SIZE
    ensures var w' := Next(w, step);
            f in w'.files && |w'.files[f]| == |w.files[f]| && SectorAt(w'.files[f], l) == SectorAt(w.files[f], l)
  {
    hide Splice, SectorCount, SectorAt, HeldProperly;
    FilesKeepShape(w, step);
    if step.Transfer? {
      var a := w.sessions[step.s];
      assert Sane(w, step.s) && Owns(w, step.s) && Fits(w.files, w.handles[a.h]);
      TransferEffect(w, step.s, step.n);
      if w.handles[a.h].file == f && a.op.WriteOp? {
        SpliceElsewhere(w.files[f], a.lsn, a.done, a.op.data[a.done..a.done + step.n], l);
      }
    }
  }

  lemma ViewOfFile(w: World, f: FileId, l: nat)
    requires f in w.files && l < |w.files[f]| / SECTOR_SIZE && forall s :: !Writing(w, s, f, l)
    ensures SectorView(w, f, l) == SectorAt(w.files[f], l)
  {
  }

  lemma ViewElsewhere(w: World, step: Step, f: FileId, l: nat)
    requires Disciplined(w) && !Conflict(w) && Enabled(w, step) && !Touches(w, step, f, l)
    requires Disciplined(Next(w, step)) && !Conflict(Next(w, step))
    requires f in w.files && l < |w.files[f]| / SECTOR_SIZE
    ensures var w' := Next(w, step);
            f in w'.files && |w'.files[f]| == |w.files[f]| && SectorView(w', f, l) == SectorView(w, f, l)
  {
    hide Disciplined, Conflict, Next, Touches, Writing, SectorView, SectorAt;
    DisciplinedShape(w);
    var w' := Next(w, step);
    FilesElsewhere(w, step, f, l);
    forall t ensures Writing(w', t, f, l) <==> Writing(w, t, f, l) { WritersElsewhere(w, step, t, f, l); }
    if t :| Writing(w, t, f, l) {
      WritersElsewhere(w, step, t, f, l);
      ViewOfWriter(w, t, f, l);
      ViewOfWriter(w', t, f, l);
    } else {
      ViewOfFile(w, f, l);
      ViewOfFile(w', f, l);
    }
  }

  lemma SpliceExtends(content: seq<Byte>, at: nat, done: nat, data: Sector, n: nat)
    requires at + SECTOR_SIZE <= |content| && done + n <= SECTOR_SIZE && content[at..at + done] == data[..done]
    ensures Splice(content, at + done, data[done..done + n])[at..at + (done + n)] == data[..done + n]
  {
    var r := Splice(content, at + done, data[done..done + n]);
    assert r[at..at + (done + n)] == content[at..at + done] + data[done..done + n];
  }

  lemma ReadExtends(content: seq<Byte>, at: nat, done: nat, n: nat)
    requires at + done + n <= |content|
    ensures content[at..at + done] + content[at + done..at + done + n] == content[at..at + (done + n)]
  {
  }

  lemma ProgressOn(a: Access, content: seq<Byte>, n: nat, a': Access, content': seq<Byte>)
    requires a.Moving? && Progress(a, content) && a.done + n <= SECTOR_SIZE
    requires var at := a.lsn * SECTOR_SIZE + a.done;
             a' == a.(done := a.done + n, buf := if a.op.ReadOp? then a.buf + content[at..at + n] else a.buf)
             && content' == if a.op.ReadOp? then content else Splice(content, at, a.op.data[a.done..a.done + n])
    ensures Progress(a', content')
  {
    hide Splice;
    var at := a.lsn * SECTOR_SIZE;
    if a.op.ReadOp? {
      ReadExtends(content, at, a.done, n);
    } else {
      SpliceExtends(content, at, a.done, a.op.data, n);
    }
  }

  /** Progress reads nothing but its own sector. */
  lemma ProgressElsewhere(a: Access, content: seq<Byte>, content': seq<Byte>)
    requires a.Moving? && Progress(a, content) && |content'| == |content|
    requires SectorAt(content', a.lsn) == SectorAt(content, a.lsn)
    ensures Progress(a, content')
  {
    var at := a.lsn * SECTOR_SIZE;
    assert content'[at..at + a.done] == SectorAt(content', a.lsn)[..a.done];
    assert content[at..at + a.done] == SectorAt(content, a.lsn)[..a.done];
  }

  lemma TransferProgress(w: World, s: nat, n: nat)
    requires Inv(w) && Enabled(w, Transfer(s, n))
    ensures var w' := Next(w, Transfer(s, n));
            var file := w.handles[w.sessions[s].h].file;
            s in w'.sessions && file in w'.files && w'.sessions[s].Moving? && Progress(w'.sessions[s], w'.files[file])
  {
    hide Next, Splice, Progress, Owns, HeldProperly, Conflict;
    TransferEffect(w, s, n);
    var a, w' := w.sessions[s], Next(w, Transfer(s, n));
    assert Faithful(w, s) && Sane(w, s);
    var file := w.handles[a.h].file;
    ProgressOn(a, w.files[file], n, w'.sessions[s], w'.files[file]);
  }

  /** Every step keeps the progress of every session it does not advance. */
  lemma FaithfulElsewhere(w: World, step: Step, t: nat)
    requires Inv(w) && Enabled(w, step) && t in w.sessions && !ActsFor(step, t)
    ensures var w' := Next(w, step); Disciplined(w') && t in w'.sessions && Faithful(w', t)
  {
    hide Next, SectorAt, Progress, Owns, HeldProperly, Conflict;
    StepDisciplined(w, step);
    NextFrame(w, step);
    var w' := Next(w, step);
    var a := w.sessions[t];
    assert Faithful(w, t) && Sane(w, t) && Sane(w', t);
    if a.Moving? && a.done < SECTOR_SIZE {
      var file := w.handles[a.h].file;
      assert Fits(w.files, w.handles[a.h]);
      if step.Transfer? && w.sessions[step.s].op.WriteOp? { AloneOnSector(w, step.s, t); }
      FilesElsewhere(w, step, file, a.lsn);
      ProgressElsewhere(a, w.files[file], w'.files[file]);
    }
  }

  lemma StepFaithful(w: World, step: Step, t: nat)
    requires Inv(w) && Enabled(w, step) && t in Next(w, step).sessions
    ensures var w' := Next(w, step); Disciplined(w') && Faithful(w', t)
  {
    hide Owns, HeldProperly, Conflict;
    StepDisciplined(w, step);
    var w' := Next(w, step);
    if !ActsFor(step, t) {
      if t in w.sessions { FaithfulElsewhere(w, step, t); }
    } else if step.Seek? {
      assert Sane(w, t) && Fits(w.files, w.handles[w.sessions[t].h]);
    } else if step.Transfer? {
      hide Next, Progress;
      TransferEffect(w, t, step.n);
      TransferProgress(w, t, step.n);
    }
  }

  lemma StepInv(w: World, step: Step)
    requires Inv(w) && Enabled(w, step) && !Conflict(Next(w, step))
    ensures Inv(Next(w, step))
  {
    hide Next, Faithful, Disciplined, Conflict, Enabled;
    DisciplinedShape(w);
    StepDisciplined(w, step);
    forall t | t in Next(w, step).sessions ensures Faithful(Next(w, step), t) { StepFaithful(w, step, t); }
  }

  /** A write takes effect at its seek ... */
  lemma SeekView(w: World, s: nat)
    requires Inv(w) && Enabled(w, Seek(s)) && !Conflict(Next(w, Seek(s))) && w.sessions[s].op.WriteOp?
    ensures var a := w.sessions[s];
            var f := w.handles[a.h].file;
            f in w.files && a.lsn < |w.files[f]| / SECTOR_SIZE && w.files == Next(w, Seek(s)).files
            && SectorView(Next(w, Seek(s)), f, a.lsn) == a.op.data
  {
    hide Faithful, Conflict, SectorView;
    StepDisciplined(w, Seek(s));
    var a := w.sessions[s];
    assert Sane(w, s) && Fits(w.files, w.handles[a.h]);
    hide Disciplined;
    ViewOfWriter(Next(w, Seek(s)), s, w.handles[a.h].file, a.lsn);
  }

  /** ... and carrying it out changes nothing more. */
  lemma WriteView(w: World, s: nat, n: nat)
    requires Inv(w) && Enabled(w, Transfer(s, n)) && !Conflict(Next(w, Transfer(s, n)))
    requires w.sessions[s].op.WriteOp?
    ensures var a := w.sessions[s];
            var f, w' := w.handles[a.h].file, Next(w, Transfer(s, n));
            f in w.files && f in w'.files && |w'.files[f]| == |w.files[f]| && a.lsn < |w.files[f]| / SECTOR_SIZE
            && SectorView(w', f, a.lsn) == SectorView(w, f, a.lsn)
  {
    hide Next, Splice, SectorView, Conflict, Owns, HeldProperly;
    StepInv(w, Transfer(s, n));
    TransferEffect(w, s, n);
    TransferProgress(w, s, n);
    var a := w.sessions[s];
    var f, w' := w.handles[a.h].file, Next(w, Transfer(s, n));
    assert Sane(w, s) && Fits(w.files, w.handles[a.h]);
    ViewOfWriter(w, s, f, a.lsn);
    if a.done + n < SECTOR_SIZE {
      ViewOfWriter(w', s, f, a.lsn);
    } else {
      forall t ensures !Writing(w', t, f, a.lsn) {
        if Writing(w', t, f, a.lsn) { LastWriter(w, s, n, t); }
      }
      ViewOfFile(w', f, a.lsn);
    }
  }

  lemma LastWriter(w: World, s: nat, n: nat, t: nat)
    requires Inv(w) && Enabled(w, Transfer(s, n)) && w.sessions[s].op.WriteOp? && w.sessions[s].done + n == SECTOR_SIZE
    ensures !Writing(Next(w, Transfer(s, n)), t, w.handles[w.sessions[s].h].file, w.sessions[s].lsn)
  {
    hide Next, Conflict, Owns, HeldProperly, Faithful, Splice;
    TransferEffect(w, s, n);
    NextFrame(w, Transfer(s, n));
    if t != s && t in w.sessions && w.sessions[t].Moving? && w.sessions[t].done < SECTOR_SIZE {
      AloneOnSector(w, s, t);
    }
  }

  /** A completed read returns the sector as whole-sector operations see it. */
  lemma ReadView(w: World, s: nat, n: nat)
    requires Inv(w) && Enabled(w, Transfer(s, n)) && w.sessions[s].op.ReadOp? && w.sessions[s].done + n == SECTOR_SIZE
    ensures var a := w.sessions[s];
            var f, w' := w.handles[a.h].file, Next(w, Transfer(s, n));
            f in w.files && a.lsn < |w.files[f]| / SECTOR_SIZE && s in w'.sessions && w'.sessions[s].Moving?
            && w'.sessions[s].buf == SectorView(w, f, a.lsn)
  {
    hide Next, Splice, SectorView, Conflict, Owns, HeldProperly;
    TransferEffect(w, s, n);
    TransferProgress(w, s, n);
    var a := w.sessions[s];
    var f := w.handles[a.h].file;
    assert Sane(w, s) && Fits(w.files, w.handles[a.h]);
    forall t ensures !Writing(w, t, f, a.lsn) {
      if Writing(w, t, f, a.lsn) { AloneOnSector(w, t, s); }
    }
    ViewOfFile(w, f, a.lsn);
  }

  lemma SameView(w: World, w': World)
    requires w'.files.Keys == w.files.Keys
    requires forall f :: f in w.files ==> |w'.files[f]| == |w.files[f]|
    requires forall f, l :: f in w.files && 0 <= l < |w.files[f]| / SECTOR_SIZE ==>
               SectorView(w', f, l) == SectorView(w, f, l)
    ensures View(w') == View(w)
  {
    hide SectorView;
    forall f | f in w.files ensures View(w')[f] == View(w)[f] {
      forall l | 0 <= l < |w.files[f]| / SECTOR_SIZE ensures View(w')[f][l] == View(w)[f][l] {}
    }
  }

  lemma PutView(w: World, w': World, q: FileId, m: nat, data: Sector)
    requires w'.files.Keys == w.files.Keys && q in w.files && m < |w.files[q]| / SECTOR_SIZE
    requires forall f :: f in w.files ==> |w'.files[f]| == |w.files[f]|
    requires forall f, l :: f in w.files && 0 <= l < |w.files[f]| / SECTOR_SIZE ==>
               SectorView(w', f, l) == if f == q && l == m then data else SectorView(w, f, l)
    ensures Holds(View(w), q, m) && View(w') == Put(View(w), q, m, data)
  {
    hide SectorView, View;
    var put := Put(View(w), q, m, data);
    assert put.Keys == w.files.Keys;
    forall f | f in w.files ensures View(w')[f] == put[f] {
      var x, y := View(w')[f], put[f];
      assert |x| == |y|;
      forall l | 0 <= l < |x| ensures x[l] == y[l] {
        assert View(w)[f][l] == SectorView(w, f, l) && x[l] == SectorView(w', f, l);
      }
    }
  }

  predicate BeginsWrite(w: World, step: Step)
    requires Enabled(w, step)
  {
    step.Seek? && w.sessions[step.s].op.WriteOp?
  }

  predicate EndsRead(w: World, step: Step)
    requires Enabled(w, step)
  {
    step.Transfer? && w.sessions[step.s].op.ReadOp? && w.sessions[step.s].done + step.n == SECTOR_SIZE
  }

  lemma ViewKept(w: World, step: Step, f: FileId, l: nat)
    requires Inv(w) && Enabled(w, step) && !Conflict(Next(w, step)) && !BeginsWrite(w, step)
    requires f in w.files && l < |w.files[f]| / SECTOR_SIZE
    ensures var w' := Next(w, step);
            f in w'.files && |w'.files[f]| == |w.files[f]| && SectorView(w', f, l) == SectorView(w, f, l)
  {
    hide Next, SectorView, Conflict, Faithful, Owns, HeldProperly, Fits;
    StepDisciplined(w, step);
    if Touches(w, step, f, l) {
      WriteView(w, step.s, step.n);
    } else {
      ViewElsewhere(w, step, f, l);
    }
  }

  lemma StepKeepsView(w: World, step: Step)
    requires Inv(w) && Enabled(w, step) && !Conflict(Next(w, step)) && !BeginsWrite(w, step)
    ensures View(Next(w, step)) == View(w)
  {
    hide Next, SectorView, Conflict, Disciplined, Enabled, Faithful;
    DisciplinedShape(w);
    FilesKeepShape(w, step);
    forall f, l | f in w.files && 0 <= l < |w.files[f]| / SECTOR_SIZE
      ensures SectorView(Next(w, step), f, l) == SectorView(w, f, l)
    {
      ViewKept(w, step, f, l);
    }
    SameView(w, Next(w, step));
  }

  lemma SeekPuts(w: World, s: nat)
    requires Inv(w) && Enabled(w, Seek(s)) && !Conflict(Next(w, Seek(s))) && w.sessions[s].op.WriteOp?
    ensures var a := w.sessions[s];
            var f := w.handles[a.h].file;
            Holds(View(w), f, a.lsn) && View(Next(w, Seek(s))) == Put(View(w), f, a.lsn, a.op.data)
  {
    hide Next, SectorView, Conflict, Faithful, View, Owns, HeldProperly, Fits;
    var a, w' := w.sessions[s], Next(w, Seek(s));
    StepDisciplined(w, Seek(s));
    SeekView(w, s);
    var q := w.handles[a.h].file;
    forall f, l | f in w.files && 0 <= l < |w.files[f]| / SECTOR_SIZE
      ensures SectorView(w', f, l) == if f == q && l == a.lsn then a.op.data else SectorView(w, f, l)
    {
      if f != q || l != a.lsn { ViewElsewhere(w, Seek(s), f, l); }
    }
    PutView(w, w', q, a.lsn, a.op.data);
  }

  lemma AtomicOne(store: Store, atom: Atom, store': Store)
    requires Holds(store, atom.file, atom.lsn)
    requires atom.ARead? ==> store[atom.file][atom.lsn] == atom.result && store' == store
    requires atom.AWrite? ==> store' == Put(store, atom.file, atom.lsn, atom.data)
    ensures Atomic(store, [atom], store')
  {
  }

  /** Each step is one whole-sector operation or none at all. */
  lemma StepRefines(w: World, step: Step)
    requires Inv(w) && Enabled(w, step) && !Conflict(Next(w, step))
    ensures Inv(Next(w, step)) && Atomic(View(w), AtomOf(w, step), View(Next(w, step)))
  {
    hide Next, SectorView, Conflict, Disciplined, Faithful, View, Put, Atomic;
    DisciplinedShape(w);
    StepInv(w, step);
    var store, store' := View(w), View(Next(w, step));
    if BeginsWrite(w, step) {
      SeekPuts(w, step.s);
      AtomicOne(store, AtomOf(w, step)[0], store');
    } else {
      StepKeepsView(w, step);
      if EndsRead(w, step) {
        ReadView(w, step.s, step.n);
        AtomicOne(store, AtomOf(w, step)[0], store');
      } else {
        AtomicNone(store);
      }
    }
  }

  lemma AtomicNone(store: Store)
    ensures Atomic(store, [], store)
  {
  }

  // ------------------------------------------------------------- every run

  /** No state of the run has a conflict. */
  ghost predicate ConflictFree(w: World, steps: seq<Step>, w': World)
    requires Runs(w, steps, w')
    decreases |steps|
  {
    !Conflict(w) && (steps == [] || ConflictFree(Next(w, steps[0]), steps[1..], w'))
  }

  /** Linearizability. Through every interleaving of sessions, mounts, remounts and unmounts in
      which no state has a conflict, the disks behave as whole-sector reads and writes, in the
      order of the accesses' own steps: no sector is torn and no read mixes two versions. */
  lemma {:induction false} EveryRunIsAtomic(w: World, steps: seq<Step>, w': World)
    requires Inv(w) && Runs(w, steps, w') && ConflictFree(w, steps, w')
    ensures Inv(w') && Atomic(View(w), Atoms(w, steps, w'), View(w'))
    decreases |steps|
  {
    hide Inv, Next, View, Atomic, AtomOf, Disciplined, Enabled, Conflict;
    if steps == [] {
      AtomicNone(View(w));
    } else {
      DisciplinedShape(w);
      var next := Next(w, steps[0]);
      assert !Conflict(next) by { FreeNow(next, steps[1..], w'); }
      StepRefines(w, steps[0]);
      EveryRunIsAtomic(next, steps[1..], w');
      AtomicConcat(View(w), AtomOf(w, steps[0]), View(next), Atoms(next, steps[1..], w'), View(w'));
    }
  }

  lemma FreeNow(w: World, steps: seq<Step>, w': World)
    requires Runs(w, steps, w') && ConflictFree(w, steps, w')
    ensures !Conflict(w)
  {
  }

  predicate MountFree(steps: seq<Step>) { forall i :: 0 <= i < |steps| ==> !steps[i].Mount? }

  /** Mounts are the only steps to look at: between them no conflict arises. */
  lemma {:induction false} MountFreeIsConflictFree(w: World, steps: seq<Step>, w': World)
    requires Runs(w, steps, w') && MountFree(steps) && !Conflict(w)
    ensures ConflictFree(w, steps, w')
    decreases |steps|
  {
    if steps != [] {
      hide Next, Conflict, Enabled;
      DisciplinedShape(w);
      if Conflict(Next(w, steps[0])) { ConflictOnlyByMount(w, steps[0]); }
      MountFreeIsConflictFree(Next(w, steps[0]), steps[1..], w');
    }
  }

  /** With no transfer under way the store is the files' own sectors. */
  lemma ViewAtRest(w: World)
    requires forall s :: s in w.sessions ==> !w.sessions[s].Moving? || w.sessions[s].done == SECTOR_SIZE
    ensures View(w) == FileSectors(w.files)
  {
    hide SectorAt;
    forall f | f in w.files ensures View(w)[f] == FileSectors(w.files)[f] {
      forall l | 0 <= l < |w.files[f]| / SECTOR_SIZE
        ensures View(w)[f][l] == Sectors(w.files[f])[l]
      {
        ViewOfFile(w, f, l);
      }
    }
  }

  /** The part of a file after its last whole sector. */
  function Tail(content: seq<Byte>): seq<Byte> { content[|content| / SECTOR_SIZE * SECTOR_SIZE..] }

  lemma SpliceKeepsTail(content: seq<Byte>, at: nat, bytes: seq<Byte>)
    requires at + |bytes| <= |content| / SECTOR_SIZE * SECTOR_SIZE
    ensures Tail(Splice(content, at, bytes)) == Tail(content)
  {
  }

  lemma StepKeepsTail(w: World, step: Step, f: FileId)
    requires Disciplined(w) && Enabled(w, step) && f in w.files
    ensures f in Next(w, step).files && Tail(Next(w, step).files[f]) == Tail(w.files[f])
  {
    hide Next, Splice, Tail, HeldProperly;
    FilesKeepShape(w, step);
    NextFrame(w, step);
    if step.Transfer? {
      var a := w.sessions[step.s];
      assert Sane(w, step.s) && Owns(w, step.s) && Fits(w.files, w.handles[a.h]);
      TransferEffect(w, step.s, step.n);
      if w.handles[a.h].file != f {
        TransferFiles(w, step.s, step.n, f);
      } else if a.op.WriteOp? {
        SpliceKeepsTail(w.files[f], a.lsn * SECTOR_SIZE + a.done, a.op.data[a.done..a.done + step.n]);
      }
    }
  }

  /** Besides the sectors nothing changes: every run keeps every file's length and the bytes
      after its last whole sector, conflicts or not. */
  lemma {:induction false} TailsUntouched(w: World, steps: seq<Step>, w': World, f: FileId)
    requires Disciplined(w) && Runs(w, steps, w') && f in w.files
    ensures f in w'.files && |w'.files[f]| == |w.files[f]| && Tail(w'.files[f]) == Tail(w.files[f])
    decreases |steps|
  {
    if steps != [] {
      hide Next, Disciplined, Enabled, Tail;
      DisciplinedShape(w);
      FilesKeepShape(w, steps[0]);
      StepKeepsTail(w, steps[0], f);
      StepDisciplined(w, steps[0]);
      TailsUntouched(Next(w, steps[0]), steps[1..], w', f);
    }
  }
}
