/** The condition of DiskAtomic is necessary: from every state with a conflict, some schedule of
    the accesses mixes two versions of a sector. */
module DiskTearing {
  import opened Proto
  import opened ServerSpec
  import opened DiskRace
  import opened DiskAtomic

  // ----------------------------------------------------- pieces of schedules

  /** A run without mounts and the whole-sector operations it claims to perform. */
  ghost predicate Goes(w: World, steps: seq<Step>, w': World, atoms: seq<Atom>) {
    Disciplined(w') && MountFree(steps) && Runs(w, steps, w') && Atoms(w, steps, w') == atoms
  }

  lemma Stay(w: World)
    requires Disciplined(w)
    ensures Goes(w, [], w, [])
  {
  }

  lemma GoOne(w: World, step: Step)
    requires Disciplined(w) && Enabled(w, step) && !step.Mount?
    ensures Goes(w, [step], Next(w, step), AtomOf(w, step)) && Disciplined(Next(w, step))
  {
    hide Next, Disciplined, Enabled, AtomOf;
    StepDisciplined(w, step);
    DisciplinedShape(w);
    RunOne(w, step);
    AtomsOne(w, step);
  }

  lemma AtomsOne(w: World, step: Step)
    requires Disciplined(w) && Enabled(w, step) && Runs(w, [step], Next(w, step))
    ensures Atoms(w, [step], Next(w, step)) == AtomOf(w, step)
  {
  }

  lemma AtomsUnfold(w: World, steps: seq<Step>, w': World)
    requires Runs(w, steps, w') && steps != []
    ensures Disciplined(w) && Enabled(w, steps[0]) && Runs(Next(w, steps[0]), steps[1..], w')
    ensures Atoms(w, steps, w') == AtomOf(w, steps[0]) + Atoms(Next(w, steps[0]), steps[1..], w')
  {
  }

  lemma {:induction false} AtomsConcat(a: World, s1: seq<Step>, b: World, s2: seq<Step>, c: World)
    requires Runs(a, s1, b) && Runs(b, s2, c)
    ensures Runs(a, s1 + s2, c) && Atoms(a, s1 + s2, c) == Atoms(a, s1, b) + Atoms(b, s2, c)
    decreases |s1|
  {
    hide Next, Disciplined, Enabled, AtomOf;
    RunsConcat(a, s1, b, s2, c);
    if s1 == [] {
      assert s1 + s2 == s2;
    } else {
      AtomsUnfold(a, s1, b);
      assert (s1 + s2)[1..] == s1[1..] + s2 && (s1 + s2)[0] == s1[0];
      AtomsUnfold(a, s1 + s2, c);
      AtomsConcat(Next(a, s1[0]), s1[1..], b, s2, c);
    }
  }

  lemma GoThen(a: World, s1: seq<Step>, b: World, x: seq<Atom>, s2: seq<Step>, c: World, y: seq<Atom>)
    requires Goes(a, s1, b, x) && Goes(b, s2, c, y)
    ensures Goes(a, s1 + s2, c, x + y)
  {
    hide Runs, Atoms, Disciplined;
    AtomsConcat(a, s1, b, s2, c);
  }

  /** What an access looks like, and what its file looks like, after it moves n more bytes. */
  function Took(a: Access, content: seq<Byte>, n: nat): (r: Access)
    requires a.Moving? && a.lsn * SECTOR_SIZE + a.done + n <= |content|
    ensures r.Moving? && r.done == a.done + n && r.h == a.h && r.lsn == a.lsn && r.op == a.op
  {
    var at := a.lsn * SECTOR_SIZE + a.done;
    a.(done := a.done + n, buf := if a.op.ReadOp? then a.buf + content[at..at + n] else a.buf)
  }

  function Gave(a: Access, content: seq<Byte>, n: nat): (r: seq<Byte>)
    requires a.Moving? && a.done + n <= SECTOR_SIZE && a.lsn * SECTOR_SIZE + a.done + n <= |content|
    ensures |r| == |content|
  {
    if a.op.ReadOp? then content
    else Splice(content, a.lsn * SECTOR_SIZE + a.done, a.op.data[a.done..a.done + n])
  }

  lemma NothingMoved(a: Access, content: seq<Byte>)
    requires a.Moving? && a.done <= SECTOR_SIZE && a.lsn * SECTOR_SIZE + a.done <= |content|
    ensures Took(a, content, 0) == a && Gave(a, content, 0) == content
  {
  }

  ghost predicate Moved(w: World, s: nat, n: nat, w': World) {
    && w'.handles == w.handles && w'.locks == w.locks && w'.drives == w.drives
    && s in w.sessions && w.sessions[s].Moving? && w.sessions[s].h < |w.handles|
    && w.sessions[s].done + n <= SECTOR_SIZE
    && var a := w.sessions[s];
       var f := w.handles[a.h].file;
       f in w.files && a.lsn * SECTOR_SIZE + SECTOR_SIZE <= |w.files[f]|
       && w'.sessions == w.sessions[s := Took(a, w.files[f], n)]
       && w'.files == w.files[f := Gave(a, w.files[f], n)]
  }

  lemma TransferMoves(w: World, s: nat, n: nat)
    requires Disciplined(w) && Enabled(w, Transfer(s, n))
    ensures Moved(w, s, n, Next(w, Transfer(s, n)))
  {
    hide Splice, Disciplined, Shaped;
    TransferPlaced(w, s);
    var a := w.sessions[s];
    var f := w.handles[a.h].file;
    if a.op.ReadOp? { assert w.files == w.files[f := w.files[f]]; }
  }

  lemma TransferPlaced(w: World, s: nat)
    requires Disciplined(w) && s in w.sessions && w.sessions[s].Moving?
    ensures var a := w.sessions[s];
            Shaped(w) && a.h < |w.handles| && w.cursors[a.h] == a.lsn * SECTOR_SIZE + a.done && a.done <= SECTOR_SIZE
            && var f := w.handles[a.h].file;
               f in w.files && a.lsn * SECTOR_SIZE + SECTOR_SIZE <= |w.files[f]|
  {
    hide HeldProperly;
    assert Owns(w, s) && Sane(w, s) && Fits(w.files, w.handles[w.sessions[s].h]);
  }

  /** Moves session s on until it has moved k bytes. A read completes when k is 256. */
  lemma MoveTo(w: World, s: nat, k: nat) returns (steps: seq<Step>, w': World, atoms: seq<Atom>)
    requires Disciplined(w) && s in w.sessions && w.sessions[s].Moving? && w.sessions[s].done <= k <= SECTOR_SIZE
    ensures Goes(w, steps, w', atoms) && Disciplined(w') && Moved(w, s, k - w.sessions[s].done, w')
    ensures var a := w.sessions[s];
            atoms == if a.op.ReadOp? && a.done < k == SECTOR_SIZE
                     then [ARead(w.handles[a.h].file, a.lsn, w'.sessions[s].buf)] else []
  {
    hide Disciplined, Goes, Next, Took, Gave;
    DisciplinedShape(w);
    var a := w.sessions[s];
    assert Sane(w, s) && Fits(w.files, w.handles[a.h]);
    if k == a.done {
      Stay(w);
      assert Disciplined(w);
      steps, w', atoms := [], w, [];
      var f := w.handles[a.h].file;
      NothingMoved(a, w.files[f]);
      assert w.sessions == w.sessions[s := a] && w.files == w.files[f := w.files[f]];
    } else {
      var step := Transfer(s, k - a.done);
      GoOne(w, step);
      TransferMoves(w, s, k - a.done);
      steps, w', atoms := [step], Next(w, step), AtomOf(w, step);
    }
  }

  // --------------------------------------------------------- two in a race

  /** Two accesses are moving the same sector of one file through different handles, and the
      first of them writes it. */
  predicate Racing(w: World, x: nat, y: nat) {
    && x in w.sessions && y in w.sessions
    && var a, b := w.sessions[x], w.sessions[y];
       a.Moving? && a.done < SECTOR_SIZE && a.op.WriteOp? && b.Moving? && b.done < SECTOR_SIZE
       && a.h != b.h && a.h < |w.handles| && b.h < |w.handles| && a.lsn == b.lsn
       && w.handles[a.h].file == w.handles[b.h].file
       && Fits(w.files, w.handles[a.h]) && a.lsn < w.handles[a.h].sectorCount
  }

  /** Both accesses complete, and bytes from one side of k belong to another version of the
      sector than bytes from the other side. A read returns the bytes it had, then the bytes up
      to k from before the write was carried out, then the writer's. Two writes leave the second
      writer's bytes up to k and the first writer's after it. */
  predicate Mixed(w: World, x: nat, y: nat, k: nat, w': World)
    requires Racing(w, x, y) && w.sessions[y].done <= k <= SECTOR_SIZE
  {
    var a, b := w.sessions[x], w.sessions[y];
    var f := w.handles[a.h].file;
    && x in w'.sessions && w'.sessions[x].Moving? && w'.sessions[x].done == SECTOR_SIZE
    && y in w'.sessions && w'.sessions[y].Moving? && w'.sessions[y].done == SECTOR_SIZE
    && f in w'.files && a.lsn * SECTOR_SIZE + SECTOR_SIZE <= |w'.files[f]|
    && match b.op
       case ReadOp =>
         w'.sessions[y].buf == b.buf + SectorAt(w.files[f], a.lsn)[b.done..k] + a.op.data[k..]
       case WriteOp(data) =>
         forall i :: b.done <= i < SECTOR_SIZE ==>
           SectorAt(w'.files[f], a.lsn)[i] == if i < k then data[i] else a.op.data[i]
  }

  lemma SectorSlice(c: seq<Byte>, l: nat, r: nat, k: nat)
    requires l * SECTOR_SIZE + SECTOR_SIZE <= |c| && r <= k <= SECTOR_SIZE
    ensures c[l * SECTOR_SIZE + r..l * SECTOR_SIZE + k] == SectorAt(c, l)[r..k]
  {
    var x, y := c[l * SECTOR_SIZE + r..l * SECTOR_SIZE + k], SectorAt(c, l)[r..k];
    assert forall i :: 0 <= i < k - r ==> x[i] == c[l * SECTOR_SIZE + r + i] == y[i];
    assert x == y;
  }

  lemma SplicedBack(c: seq<Byte>, at: nat, e: nat, k: nat, d: Sector)
    requires at + SECTOR_SIZE <= |c| && e <= k <= SECTOR_SIZE
    ensures Splice(c, at + e, d[e..])[at + k..at + SECTOR_SIZE] == d[k..]
  {
    hide Splice;
    var c', back := Splice(c, at + e, d[e..]), d[k..];
    var got := c'[at + k..at + SECTOR_SIZE];
    forall i | 0 <= i < SECTOR_SIZE - k ensures got[i] == back[i] {
      SplicedByte(c, at + e, d[e..], at + k + i);
    }
    assert got == back;
  }

  lemma WriteAcross(c: seq<Byte>, l: nat, r: nat, e: nat, k: nat, d: Sector, d': Sector, i: nat)
    requires l * SECTOR_SIZE + SECTOR_SIZE <= |c| && r <= k && e <= k <= SECTOR_SIZE && r <= i < SECTOR_SIZE
    ensures var at := l * SECTOR_SIZE;
            var c1 := Splice(c, at + e, d[e..k]);
            var c2 := Splice(c1, at + r, d'[r..]);
            var c3 := Splice(c2, at + k, d[k..]);
            SectorAt(c3, l)[i] == if i < k then d'[i] else d[i]
  {
    hide Splice;
    var at := l * SECTOR_SIZE;
    var c1 := Splice(c, at + e, d[e..k]);
    var c2 := Splice(c1, at + r, d'[r..]);
    SplicedByte(c1, at + r, d'[r..], at + i);
    SplicedByte(c2, at + k, d[k..], at + i);
  }

  lemma SplicedByte(c: seq<Byte>, at: nat, bytes: seq<Byte>, i: nat)
    requires at + |bytes| <= |c| && i < |c|
    ensures Splice(c, at, bytes)[i] == if at <= i < at + |bytes| then bytes[i - at] else c[i]
  {
  }

  /** The state after reading to k, letting the writer finish, and reading on. */
  predicate ReadAround(w: World, x: nat, y: nat, k: nat, w': World)
    requires Racing(w, x, y) && w.sessions[y].done <= k < SECTOR_SIZE
  {
    var a, b := w.sessions[x], w.sessions[y];
    var f := w.handles[a.h].file;
    var c := w.files[f];
    var c' := Gave(a, c, SECTOR_SIZE - a.done);
    w'.handles == w.handles && w'.files == w.files[f := c']
    && w'.sessions == w.sessions[x := Took(a, c, SECTOR_SIZE - a.done)]
                                [y := Took(Took(b, c, k - b.done), c', SECTOR_SIZE - k)]
  }

  lemma ReadSchedule(w: World, x: nat, y: nat, k: nat) returns (steps: seq<Step>, w': World, atoms: seq<Atom>)
    requires Disciplined(w) && Racing(w, x, y) && w.sessions[y].op.ReadOp?
    requires w.sessions[x].done <= k && w.sessions[y].done <= k < SECTOR_SIZE
    ensures Goes(w, steps, w', atoms) && Disciplined(w') && ReadAround(w, x, y, k, w')
    ensures atoms == [ARead(w.handles[w.sessions[x].h].file, w.sessions[x].lsn, w'.sessions[y].buf)]
  {
    hide Disciplined, Goes, Took, Splice;
    var s1, w1, t1 := MoveTo(w, y, k);
    assert w1.files == w.files;
    var s2, w2, t2 := MoveTo(w1, x, SECTOR_SIZE);
    var s3, w3, t3 := MoveTo(w2, y, SECTOR_SIZE);
    assert w3.files == w2.files;
    hide Gave;
    GoThen(w, s1, w1, t1, s2, w2, t2);
    GoThen(w, s1 + s2, w2, t1 + t2, s3, w3, t3);
    steps, w', atoms := s1 + s2 + s3, w3, t1 + t2 + t3;
  }

  lemma ReadsJoin(b: Access, c: seq<Byte>, c': seq<Byte>, k: nat)
    requires b.Moving? && b.op.ReadOp? && b.done <= k < SECTOR_SIZE && |c'| == |c|
    requires b.lsn * SECTOR_SIZE + SECTOR_SIZE <= |c|
    ensures var at := b.lsn * SECTOR_SIZE;
            Took(Took(b, c, k - b.done), c', SECTOR_SIZE - k).buf ==
            b.buf + c[at + b.done..at + k] + c'[at + k..at + SECTOR_SIZE]
  {
  }

  lemma TwoReads(a: Access, b: Access, c: seq<Byte>, k: nat)
    requires a.Moving? && b.Moving? && a.op.WriteOp? && b.op.ReadOp? && a.lsn == b.lsn
    requires a.lsn * SECTOR_SIZE + SECTOR_SIZE <= |c| && a.done <= k && b.done <= k < SECTOR_SIZE
    ensures Took(Took(b, c, k - b.done), Gave(a, c, SECTOR_SIZE - a.done), SECTOR_SIZE - k).buf ==
            b.buf + SectorAt(c, a.lsn)[b.done..k] + a.op.data[k..]
  {
    hide Splice, SectorAt, Took;
    var at, d := a.lsn * SECTOR_SIZE, a.op.data;
    assert d[a.done..a.done + (SECTOR_SIZE - a.done)] == d[a.done..];
    SectorSlice(c, a.lsn, b.done, k);
    SplicedBack(c, at, a.done, k, d);
    ReadsJoin(b, c, Gave(a, c, SECTOR_SIZE - a.done), k);
  }

  lemma ReadAroundMixes(w: World, x: nat, y: nat, k: nat, w': World)
    requires Racing(w, x, y) && w.sessions[x].done <= k && w.sessions[y].done <= k < SECTOR_SIZE
    requires w.sessions[y].op.ReadOp? && ReadAround(w, x, y, k, w')
    ensures Mixed(w, x, y, k, w') && w'.sessions.Keys == w.sessions.Keys
  {
    hide Took, Gave, SectorAt;
    var a, b := w.sessions[x], w.sessions[y];
    TwoReads(a, b, w.files[w.handles[a.h].file], k);
  }

  /** Write to k, let the other writer finish, write on. */
  lemma WriteMixes(w: World, x: nat, y: nat, k: nat) returns (steps: seq<Step>, w': World, atoms: seq<Atom>)
    requires Disciplined(w) && Racing(w, x, y) && w.sessions[y].op.WriteOp?
    requires w.sessions[x].done <= k && w.sessions[y].done <= k < SECTOR_SIZE
    ensures Goes(w, steps, w', atoms) && Mixed(w, x, y, k, w')
  {
    hide Disciplined, Goes, Splice, SectorAt;
    var a, b := w.sessions[x], w.sessions[y];
    var f := w.handles[a.h].file;
    var s1, w1, t1 := MoveTo(w, x, k);
    var s2, w2, t2 := MoveTo(w1, y, SECTOR_SIZE);
    var s3, w3, t3 := MoveTo(w2, x, SECTOR_SIZE);
    GoThen(w, s1, w1, t1, s2, w2, t2);
    GoThen(w, s1 + s2, w2, t1 + t2, s3, w3, t3);
    steps, w', atoms := s1 + s2 + s3, w3, t1 + t2 + t3;
    assert a.op.data[a.done..a.done + (k - a.done)] == a.op.data[a.done..k];
    assert b.op.data[b.done..b.done + (SECTOR_SIZE - b.done)] == b.op.data[b.done..];
    assert a.op.data[k..k + (SECTOR_SIZE - k)] == a.op.data[k..];
    forall i | b.done <= i < SECTOR_SIZE
      ensures SectorAt(w3.files[f], a.lsn)[i] == if i < k then b.op.data[i] else a.op.data[i]
    {
      WriteAcross(w.files[f], a.lsn, b.done, a.done, k, a.op.data, b.op.data, i);
    }
  }

  lemma RacingMixes(w: World, x: nat, y: nat, k: nat) returns (steps: seq<Step>, w': World, atoms: seq<Atom>)
    requires Disciplined(w) && Racing(w, x, y)
    requires w.sessions[x].done <= k && w.sessions[y].done <= k < SECTOR_SIZE
    ensures Goes(w, steps, w', atoms) && Mixed(w, x, y, k, w')
  {
    hide Disciplined, Goes, Mixed, ReadAround, Fits;
    if w.sessions[y].op.ReadOp? {
      steps, w', atoms := ReadSchedule(w, x, y, k);
      ReadAroundMixes(w, x, y, k, w');
    } else {
      steps, w', atoms := WriteMixes(w, x, y, k);
    }
  }

  // ------------------------------------------- from a conflict to the race

  lemma Leave(w: World, s: nat)
    requires Disciplined(w) && Enabled(w, Release(s))
    ensures var w' := Next(w, Release(s));
            Goes(w, [Release(s)], w', []) && Disciplined(w') && w.sessions[s].h < |w.locks|
            && w' == w.(locks := w.locks[w.sessions[s].h := None], sessions := w.sessions - {s})
  {
    hide Disciplined, Goes, Fits;
    GoOne(w, Release(s));
    DisciplinedShape(w);
    assert Sane(w, s);
  }

  lemma Begin(w: World, s: nat)
    requires Disciplined(w) && Enabled(w, Seek(s))
    ensures var w' := Next(w, Seek(s));
            var a := w.sessions[s];
            Goes(w, [Seek(s)], w', AtomOf(w, Seek(s))) && Disciplined(w') && a.h < |w.cursors|
            && w' == w.(cursors := w.cursors[a.h := a.lsn * SECTOR_SIZE],
                        sessions := w.sessions[s := Moving(a.h, a.lsn, a.op, 0, [])])
  {
    hide Disciplined, Goes, Fits;
    GoOne(w, Seek(s));
    DisciplinedShape(w);
    assert Sane(w, s);
  }

  lemma Take(w: World, s: nat)
    requires Disciplined(w) && Enabled(w, Lock(s))
    ensures var w' := Next(w, Lock(s));
            var a := w.sessions[s];
            Goes(w, [Lock(s)], w', []) && Disciplined(w') && a.h < |w.locks|
            && w' == w.(locks := w.locks[a.h := Some(s)], sessions := w.sessions[s := Holding(a.h, a.lsn, a.op)])
  {
    hide Disciplined, Goes, Fits;
    DisciplinedShape(w);
    GoOne(w, Lock(s));
  }

  /** Whoever holds a lock can finish and give it back. */
  lemma Drain(w: World, t: nat) returns (steps: seq<Step>, w': World, atoms: seq<Atom>)
    requires Disciplined(w) && t in w.sessions && !w.sessions[t].Looked?
    ensures Goes(w, steps, w', atoms) && Disciplined(w')
    ensures w'.handles == w.handles && w'.sessions == w.sessions - {t}
    ensures w.sessions[t].h < |w.locks| && w'.locks == w.locks[w.sessions[t].h := None]
  {
    hide Disciplined, Goes, Next, Took, Gave, Fits;
    DisciplinedShape(w);
    assert Sane(w, t);
    var s1, w1, t1 := [], w, [];
    if w.sessions[t].Holding? {
      Begin(w, t);
      s1, w1, t1 := [Seek(t)], Next(w, Seek(t)), AtomOf(w, Seek(t));
    } else {
      Stay(w);
    }
    var s2, w2, t2 := MoveTo(w1, t, SECTOR_SIZE);
    DisciplinedShape(w2);
    Leave(w2, t);
    GoThen(w, s1, w1, t1, s2, w2, t2);
    GoThen(w, s1 + s2, w2, t1 + t2, [Release(t)], Next(w2, Release(t)), []);
    steps, w', atoms := s1 + s2 + [Release(t)], Next(w2, Release(t)), t1 + t2 + [];
    assert w'.sessions == w.sessions - {t};
  }

  /** Makes the lock of image h free, without disturbing an access to another image. */
  lemma Unblock(w: World, h: nat, s: nat, keep: nat) returns (steps: seq<Step>, w': World, atoms: seq<Atom>)
    requires Disciplined(w) && h < |w.handles| && s in w.sessions && keep in w.sessions
    requires w.sessions[s].Looked? && w.sessions[keep].h != h
    ensures Goes(w, steps, w', atoms) && Disciplined(w') && w'.handles == w.handles
    ensures h < |w'.locks| && w'.locks[h] == None
    ensures s in w'.sessions && w'.sessions[s] == w.sessions[s]
    ensures keep in w'.sessions && w'.sessions[keep] == w.sessions[keep]
  {
    hide Goes, Owns, Fits, Sane;
    assert HeldProperly(w, h);
    if w.locks[h].Some? {
      steps, w', atoms := Drain(w, w.locks[h].value);
    } else {
      Stay(w);
      steps, w', atoms := [], w, [];
    }
  }

  /** Brings a pending access to the point where it transfers, another one staying as it is. */
  lemma Prepare(w: World, s: nat, keep: nat) returns (steps: seq<Step>, w': World, atoms: seq<Atom>)
    requires Disciplined(w) && s in w.sessions && keep in w.sessions
    requires Pending(w.sessions[s]) && w.sessions[s].h != w.sessions[keep].h
    ensures Goes(w, steps, w', atoms) && Disciplined(w') && w'.handles == w.handles
    ensures keep in w'.sessions && w'.sessions[keep] == w.sessions[keep]
    ensures s in w'.sessions && w'.sessions[s].Moving? && w'.sessions[s].done < SECTOR_SIZE
    ensures w'.sessions[s].h == w.sessions[s].h && w'.sessions[s].lsn == w.sessions[s].lsn
            && w'.sessions[s].op == w.sessions[s].op
  {
    hide Disciplined, Goes, Next, Fits;
    DisciplinedShape(w);
    assert Sane(w, s);
    steps, w', atoms := [], w, [];
    Stay(w);
    if w.sessions[s].Looked? {
      steps, w', atoms := Unblock(w, w.sessions[s].h, s, keep);
      DisciplinedShape(w');
      Take(w', s);
      GoThen(w, steps, w', atoms, [Lock(s)], Next(w', Lock(s)), []);
      steps, w', atoms := steps + [Lock(s)], Next(w', Lock(s)), atoms + [];
    }
    if w'.sessions[s].Holding? {
      DisciplinedShape(w');
      Begin(w', s);
      GoThen(w, steps, w', atoms, [Seek(s)], Next(w', Seek(s)), AtomOf(w', Seek(s)));
      steps, w', atoms := steps + [Seek(s)], Next(w', Seek(s)), atoms + AtomOf(w', Seek(s));
    }
  }

  lemma {:induction false} FreshSession(taken: set<nat>) returns (s: nat)
    ensures forall t :: t in taken ==> t < s
  {
    if taken == {} {
      s := 0;
    } else {
      var t :| t in taken;
      var u := FreshSession(taken - {t});
      s := if t < u then u else t + 1;
      assert forall e :: e in taken ==> e == t || e in taken - {t};
    }
  }

  lemma Look(w: World, s: nat, slot: Byte, l: Lsn, op: Op)
    requires Disciplined(w) && Enabled(w, Lookup(s, slot, l, op))
    ensures var w' := Next(w, Lookup(s, slot, l, op));
            Goes(w, [Lookup(s, slot, l, op)], w', []) && Disciplined(w')
            && w' == w.(sessions := w.sessions[s := Looked(w.drives[slot], l, op)])
  {
    hide Disciplined, Goes, Fits;
    DisciplinedShape(w);
    GoOne(w, Lookup(s, slot, l, op));
  }

  /** A handle in use has an access on its way, or can be given one. */
  lemma Enter(w: World, h: nat, l: Lsn, op: Op) returns (steps: seq<Step>, w': World, s: nat)
    requires Disciplined(w) && Uses(w, h, l, op.WriteOp?)
    ensures Goes(w, steps, w', []) && Disciplined(w') && w'.handles == w.handles && w'.drives == w.drives
    ensures SessionUses(w', s, h, l, op.WriteOp?)
    ensures forall t :: t in w.sessions ==> t in w'.sessions && w'.sessions[t] == w.sessions[t]
  {
    hide Disciplined, Goes, Next;
    if t: nat :| SessionUses(w, t, h, l, op.WriteOp?) {
      Stay(w);
      steps, w', s := [], w, t;
    } else {
      var slot: Byte :| SlotUses(w, slot, h, l, op.WriteOp?);
      s := FreshSession(w.sessions.Keys);
      var step := Lookup(s, slot, l, op);
      DisciplinedShape(w);
      Look(w, s, slot, l, op);
      steps, w' := [step], Next(w, step);
    }
  }

  lemma UsesKept(w: World, w': World, h: nat, l: Lsn, writes: bool)
    requires Uses(w, h, l, writes) && w'.handles == w.handles && w'.drives == w.drives
    requires forall t :: t in w.sessions ==> t in w'.sessions && w'.sessions[t] == w.sessions[t]
    ensures Uses(w', h, l, writes)
  {
    if s: nat :| SessionUses(w, s, h, l, writes) {
      assert SessionUses(w', s, h, l, writes);
    } else {
      var slot: Byte :| SlotUses(w, slot, h, l, writes);
      assert SlotUses(w', slot, h, l, writes);
    }
  }

  /** From every conflict, without any further mount, two accesses come to race. */
  lemma ConflictRaces(w: World, data: Sector) returns (steps: seq<Step>, w': World, atoms: seq<Atom>, x: nat, y: nat)
    requires Disciplined(w) && Conflict(w)
    ensures Goes(w, steps, w', atoms) && Disciplined(w') && Racing(w', x, y)
  {
    hide Disciplined, Goes, Uses, Fits;
    var i: nat, j: nat, l: Lsn :| Clash(w, i, j, l);
    var s1, w1, x1 := Enter(w, i, l, WriteOp(data));
    UsesKept(w, w1, j, l, false);
    var s2, w2, y1 := Enter(w1, j, l, ReadOp);
    var s3, w3, t3 := Prepare(w2, x1, y1);
    var s4, w4, t4 := Prepare(w3, y1, x1);
    GoThen(w, s1, w1, [], s2, w2, []);
    GoThen(w, s1 + s2, w2, [] + [], s3, w3, t3);
    GoThen(w, s1 + s2 + s3, w3, [] + [] + t3, s4, w4, t4);
    steps, w', atoms, x, y := s1 + s2 + s3 + s4, w4, [] + [] + t3 + t4, x1, y1;
    DisciplinedShape(w4);
    assert Sane(w4, x);
  }

  ghost predicate CanMix(w: World, x: nat, y: nat, k: nat)
    requires Racing(w, x, y)
  {
    w.sessions[x].done <= k && w.sessions[y].done <= k < SECTOR_SIZE ==>
      exists steps, w' :: MountFree(steps) && Runs(w, steps, w') && Mixed(w, x, y, k, w')
  }

  /** The converse of DiskAtomic.EveryRunIsAtomic: from every state with a conflict, whatever the
      other sessions are doing, a run without mounts leads to a race, and the race to two
      completed accesses that mix two versions of one sector, at every k neither has passed. */
  lemma ConflictTears(w: World, data: Sector) returns (front: seq<Step>, mid: World, x: nat, y: nat)
    requires Disciplined(w) && Conflict(w)
    ensures MountFree(front) && Runs(w, front, mid) && Racing(mid, x, y)
    ensures forall k: nat :: CanMix(mid, x, y, k)
  {
    hide Disciplined, Mixed, Runs, MountFree, Fits;
    var atoms;
    front, mid, atoms, x, y := ConflictRaces(w, data);
    forall k: nat ensures CanMix(mid, x, y, k) {
      if mid.sessions[x].done <= k && mid.sessions[y].done <= k < SECTOR_SIZE {
        var back, w', _ := RacingMixes(mid, x, y, k);
        assert MountFree(back) && Runs(mid, back, w');
      }
    }
  }

  // ------------------------------------------------ exactly, from idle states

  /** Some order of the operations explains the stores before and after. */
  ghost predicate Linearizable(store: Store, atoms: seq<Atom>, store': Store) {
    exists order: seq<Atom> :: multiset(order) == multiset(atoms) && Atomic(store, order, store')
  }

  /** Every run from w, without mounts and with every access completed, is explained by some
      order of its reads and writes. */
  ghost predicate AlwaysLinearizable(w: World) {
    forall steps, w' :: Runs(w, steps, w') && MountFree(steps) && w'.sessions == map[] ==>
      Linearizable(FileSectors(w.files), Atoms(w, steps, w'), FileSectors(w'.files))
  }

  /** From idle to just past the seek, when the image is unlocked. */
  lemma Start(w: World, s: nat, slot: Byte, l: Lsn, op: Op) returns (steps: seq<Step>, w': World, atoms: seq<Atom>)
    requires Disciplined(w) && Enabled(w, Lookup(s, slot, l, op))
    requires w.drives[slot] < |w.locks| && w.locks[w.drives[slot]] == None
    ensures Goes(w, steps, w', atoms) && Disciplined(w')
    ensures var h := w.drives[slot];
            h < |w.handles| && h < |w.cursors|
            && atoms == (if op.WriteOp? then [AWrite(w.handles[h].file, l, op.data)] else [])
            && w' == w.(locks := w.locks[h := Some(s)], cursors := w.cursors[h := l * SECTOR_SIZE],
                        sessions := w.sessions[s := Moving(h, l, op, 0, [])])
  {
    hide Disciplined, Goes, Next;
    DisciplinedShape(w);
    Look(w, s, slot, l, op);
    var w1 := Next(w, Lookup(s, slot, l, op));
    DisciplinedShape(w1);
    Take(w1, s);
    var w2 := Next(w1, Lock(s));
    DisciplinedShape(w2);
    Begin(w2, s);
    GoThen(w, [Lookup(s, slot, l, op)], w1, [], [Lock(s)], w2, []);
    steps := [Lookup(s, slot, l, op)] + [Lock(s)] + [Seek(s)];
    w', atoms := Next(w2, Seek(s)), [] + [] + AtomOf(w2, Seek(s));
    GoThen(w, [Lookup(s, slot, l, op)] + [Lock(s)], w2, [] + [], [Seek(s)], w', AtomOf(w2, Seek(s)));
  }

  /** Differs from the sector everywhere. */
  function Other(c: Sector): (d: Sector)
    ensures forall i :: 0 <= i < SECTOR_SIZE ==> d[i] != c[i]
  {
    seq(SECTOR_SIZE, i requires 0 <= i < SECTOR_SIZE => (c[i] as int + 1) % 256)
  }

  lemma TwoOrders(order: seq<Atom>, a: Atom, b: Atom)
    requires a != b && multiset(order) == multiset([a, b])
    ensures order == [a, b] || order == [b, a]
  {
    assert |order| == |multiset(order)| == 2;
    var x, y := order[0], order[1];
    assert order == [x, y];
    assert x in multiset(order) && y in multiset(order);
    assert multiset([a, b])[x] == 1;
    assert x == y ==> multiset([x, y])[x] == 2;
  }

  /** A write of d and a read that saw some of it explain each other in neither order. */
  lemma MixedReadUnexplained(store: Store, f: FileId, l: Lsn, d: Sector, result: seq<Byte>, store': Store)
    requires Holds(store, f, l) && result != store[f][l] && result != d
    ensures !Linearizable(store, [AWrite(f, l, d)] + [ARead(f, l, result)], store')
  {
    var x, y := AWrite(f, l, d), ARead(f, l, result);
    assert [x] + [y] == [x, y];
    forall order: seq<Atom> | multiset(order) == multiset([x, y]) ensures !Atomic(store, order, store') {
      TwoOrders(order, x, y);
    }
  }

  /** Two slots hold different handles on a file that has a sector, one of them writable. */
  ghost predicate SharedImage(w: World) {
    exists a: Byte, b: Byte :: SharedBy(w, a, b)
  }

  predicate SharedBy(w: World, a: Byte, b: Byte) {
    && a in w.drives && b in w.drives && w.drives[a] != w.drives[b]
    && w.drives[a] < |w.handles| && w.drives[b] < |w.handles|
    && var i, j := w.handles[w.drives[a]], w.handles[w.drives[b]];
       i.file == j.file && !i.readOnly && i.sectorCount > 0 && j.sectorCount > 0
  }

  /** In an idle state the mount table alone decides. */
  lemma IdleConflictIff(w: World)
    requires w.sessions == map[]
    ensures Conflict(w) <==> SharedImage(w)
  {
    if Conflict(w) {
      var i: nat, j: nat, l: Lsn :| Clash(w, i, j, l);
      var a: Byte :| SlotUses(w, a, i, l, true);
      var b: Byte :| SlotUses(w, b, j, l, false);
      assert SharedBy(w, a, b);
    }
    if SharedImage(w) {
      var a: Byte, b: Byte :| SharedBy(w, a, b);
      assert SlotUses(w, a, w.drives[a], 0, true) && SlotUses(w, b, w.drives[b], 0, false);
      assert Clash(w, w.drives[a], w.drives[b], 0);
    }
  }

  /** From idle: session 0 has begun to write the sector through one slot, session 1 to read it
      through another. */
  lemma IdleRace(w: World, a: Byte, b: Byte, l: Lsn, d: Sector) returns (steps: seq<Step>, w': World, atoms: seq<Atom>)
    requires Disciplined(w) && w.sessions == map[]
    requires Enabled(w, Lookup(0, a, l, WriteOp(d))) && Enabled(w, Lookup(1, b, l, ReadOp))
    requires w.drives[a] != w.drives[b] && w.handles[w.drives[a]].file == w.handles[w.drives[b]].file
    ensures Goes(w, steps, w', atoms) && Disciplined(w') && Racing(w', 0, 1) && w'.files == w.files
    ensures atoms == [AWrite(w.handles[w.drives[a]].file, l, d)] && w'.handles == w.handles
    ensures w'.sessions == map[0 := Moving(w.drives[a], l, WriteOp(d), 0, []),
                               1 := Moving(w.drives[b], l, ReadOp, 0, [])]
  {
    hide Disciplined, Goes, Next, Fits;
    IdleUnlocked(w);
    DisciplinedShape(w);
    var s1, w1, t1 := Start(w, 0, a, l, WriteOp(d));
    var s2, w2, t2 := Start(w1, 1, b, l, ReadOp);
    GoThen(w, s1, w1, t1, s2, w2, t2);
    steps, w', atoms := s1 + s2, w2, t1 + t2;
  }

  lemma BothLeave(w: World) returns (steps: seq<Step>, w': World)
    requires Disciplined(w) && w.sessions.Keys == {0, 1}
    requires Enabled(w, Release(0)) && Enabled(w, Release(1))
    ensures Goes(w, steps, w', []) && w'.sessions == map[]
  {
    hide Disciplined, Goes, Next;
    DisciplinedShape(w);
    Leave(w, 0);
    var w1 := Next(w, Release(0));
    DisciplinedShape(w1);
    Leave(w1, 1);
    steps, w' := [Release(0)] + [Release(1)], Next(w1, Release(1));
    GoThen(w, [Release(0)], w1, [], [Release(1)], w', []);
    var none: seq<Atom> := [];
    assert none + none == none && w'.sessions.Keys == {};
  }

  lemma MixedSector(c: Sector, d: Sector)
    requires forall i :: 0 <= i < SECTOR_SIZE ==> d[i] != c[i]
    ensures [] + c[0..1] + d[1..] != c && [] + c[0..1] + d[1..] != d
  {
    var r := [] + c[0..1] + d[1..];
    assert r[0] == c[0] && r[1] == d[1];
  }

  lemma IdleTears(w: World) returns (steps: seq<Step>, w': World)
    requires Disciplined(w) && w.sessions == map[] && Conflict(w)
    ensures MountFree(steps) && Runs(w, steps, w') && w'.sessions == map[]
    ensures !Linearizable(FileSectors(w.files), Atoms(w, steps, w'), FileSectors(w'.files))
  {
    hide Disciplined, Runs, Linearizable, Splice, SectorAt, MountFree, Atoms;
    IdleConflictIff(w);
    var a: Byte, b: Byte :| SharedBy(w, a, b);
    DisciplinedShape(w);
    var f := w.handles[w.drives[a]].file;
    assert Fits(w.files, w.handles[w.drives[a]]);
    var c := SectorAt(w.files[f], 0);
    var d := Other(c);
    var s1, w1, t1 := IdleRace(w, a, b, 0, d);
    var s2, w2, t2 := ReadSchedule(w1, 0, 1, 1);
    ReadAroundMixes(w1, 0, 1, 1, w2);
    var s3, w3 := BothLeave(w2);
    GoThen(w, s1, w1, t1, s2, w2, t2);
    GoThen(w, s1 + s2, w2, t1 + t2, s3, w3, []);
    steps, w' := s1 + s2 + s3, w3;
    MixedSector(c, d);
    assert t1 + t2 + [] == [AWrite(f, 0, d)] + [ARead(f, 0, w2.sessions[1].buf)];
    MixedReadUnexplained(FileSectors(w.files), f, 0, d, w2.sessions[1].buf, FileSectors(w'.files));
  }

  lemma IdleUnlocked(w: World)
    requires Disciplined(w) && w.sessions == map[]
    ensures forall h :: 0 <= h < |w.locks| ==> w.locks[h] == None
  {
    forall h | 0 <= h < |w.locks| ensures w.locks[h] == None { assert HeldProperly(w, h); }
  }

  /** The exact condition: from an idle state every completed run without mounts is
      linearizable if and only if there is no conflict. */
  lemma LinearizableIffNoConflict(w: World)
    requires Disciplined(w) && w.sessions == map[]
    ensures AlwaysLinearizable(w) <==> !Conflict(w)
  {
    hide Disciplined, Conflict, Runs, Atomic, View, MountFree, FileSectors;
    if Conflict(w) {
      var steps, w' := IdleTears(w);
    } else {
      forall steps, w' | Runs(w, steps, w') && MountFree(steps) && w'.sessions == map[]
        ensures Linearizable(FileSectors(w.files), Atoms(w, steps, w'), FileSectors(w'.files))
      {
        assert Inv(w);
        MountFreeIsConflictFree(w, steps, w');
        EveryRunIsAtomic(w, steps, w');
        ViewAtRest(w);
        ViewAtRest(w');
      }
    }
  }

  // ------------------------------------------------------------- histories

  /** A server that has just started. */
  function Fresh(files: map<FileId, seq<Byte>>, names: map<Path, FileId>): World {
    World(files, names, [], [], [], map[], map[])
  }

  lemma FreshInv(files: map<FileId, seq<Byte>>, names: map<Path, FileId>)
    requires Resolves(files, names)
    ensures Inv(Fresh(files, names))
  {
  }

  /** Mounting two paths, spelled alike or not, brings a conflict exactly when they resolve to one
      file, it has a sector and one of the mounts is writable. */
  lemma TwoMounts(files: map<FileId, seq<Byte>>, names: map<Path, FileId>,
                  a: Byte, p: Path, ro1: bool, b: Byte, q: Path, ro2: bool)
    returns (w: World)
    requires Resolves(files, names) && p in names && q in names && a != b
    ensures Runs(Fresh(files, names), [Step.Mount(a, p, ro1), Step.Mount(b, q, ro2)], w) && Disciplined(w)
    ensures Conflict(w) <==> names[p] == names[q] && SectorCount(|files[names[p]]|) > 0 && !(ro1 && ro2)
  {
    hide Conflict, SectorCount;
    var w0 := Fresh(files, names);
    var m1, m2 := Step.Mount(a, p, ro1), Step.Mount(b, q, ro2);
    var w1 := Next(w0, m1);
    w := Next(w1, m2);
    FreshInv(files, names);
    StepDisciplined(w0, m1);
    StepDisciplined(w1, m2);
    RunOne(w0, m1);
    RunOne(w1, m2);
    RunsConcat(w0, [m1], w1, [m2], w);
    assert [m1] + [m2] == [m1, m2];
    IdleConflictIff(w);
    assert w.drives == map[a := 0, b := 1];
    assert !ro1 ==> (SharedBy(w, a, b) <==> names[p] == names[q] && SectorCount(|files[names[p]]|) > 0);
    assert !ro2 ==> (SharedBy(w, b, a) <==> names[p] == names[q] && SectorCount(|files[names[p]]|) > 0);
  }

  /** Mounting after an unmount brings none, whatever the two paths resolve to. */
  lemma Remount(files: map<FileId, seq<Byte>>, names: map<Path, FileId>,
                a: Byte, p: Path, ro1: bool, b: Byte, q: Path, ro2: bool)
    returns (w: World)
    requires Resolves(files, names) && p in names && q in names
    ensures Runs(Fresh(files, names), [Step.Mount(a, p, ro1), Step.Unmount(a), Step.Mount(b, q, ro2)], w) && Inv(w)
  {
    hide SectorCount;
    var steps := [Step.Mount(a, p, ro1), Step.Unmount(a), Step.Mount(b, q, ro2)];
    var w0 := Fresh(files, names);
    var w1 := Next(w0, steps[0]);
    var w2 := Next(w1, steps[1]);
    w := Next(w2, steps[2]);
    FreshInv(files, names);
    StepDisciplined(w0, steps[0]);
    StepDisciplined(w1, steps[1]);
    StepDisciplined(w2, steps[2]);
    RunOne(w0, steps[0]);
    RunOne(w1, steps[1]);
    RunOne(w2, steps[2]);
    RunsConcat(w0, [steps[0]], w1, [steps[1]], w2);
    RunsConcat(w0, [steps[0]] + [steps[1]], w2, [steps[2]], w);
    assert [steps[0]] + [steps[1]] + [steps[2]] == steps;
    assert w.drives == map[b := 1];
    IdleConflictIff(w);
  }
}
