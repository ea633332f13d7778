/** Sessions over byte streams: composition, truncation and prefixes. */
module Stream {
  import opened Proto
  import opened Wire
  import opened ServerSpec

  lemma Assoc(a: seq<Byte>, b: seq<Byte>, c: seq<Byte>)
    ensures (a + b) + c == a + (b + c)
  {
  }

  lemma {:induction false} ExecAllAppend(st: State, a: seq<Command>, b: seq<Command>, clock: Clock)
    requires Valid(st)
    ensures var r := ExecAll(st, a, clock);
            var q := ExecAll(r.st, b, clock);
            ExecAll(st, a + b, clock) == Effect(q.st, r.out + q.out)
    decreases |a|
  {
    hide Exec;
    if a == [] {
      assert a + b == b;
    } else {
      assert (a + b)[1..] == a[1..] + b;
      ExecAllAppend(Exec(st, a[0], clock).st, a[1..], b, clock);
    }
  }

  /** One turn of the dispatch loop: run the first command, then serve the rest. */
  lemma ServeStep(st: State, s: seq<Byte>, clock: Clock)
    requires Valid(st) && ParseOne(s).Complete?
    ensures var p := ParseOne(s);
            var e := Exec(st, p.cmd, clock);
            var r := Serve(e.st, s[p.used..], clock);
            Serve(st, s, clock) == Outcome(r.st, e.out + r.out, r.end)
  {
    hide ParseOne, Exec, TailReply;
    var p := ParseOne(s);
    SplitStep(s);
    var q := Split(s[p.used..]);
    assert ([p.cmd] + q.cmds)[1..] == q.cmds;
  }

  lemma ServeStuck(st: State, s: seq<Byte>, clock: Clock)
    requires Valid(st) && ParseOne(s).Incomplete?
    ensures Serve(st, s, clock) ==
            Outcome(st, TailReply(st, s), if s == [] then Eof else Truncated)
  {
  }

  /** Serving the encodings of a list of commands executes exactly that list. */
  lemma ServeRunsCommands(st: State, cs: seq<Command>, clock: Clock)
    requires Valid(st) && AllWellFormed(cs)
    ensures var r := ExecAll(st, cs, clock);
            Serve(st, EncodeAll(cs), clock) == Outcome(r.st, r.out, Eof)
  {
    hide Exec, PartialReply;
    assert ParseOne([]).Incomplete?;
    SplitUnique(cs, []);
    assert EncodeAll(cs) + [] == EncodeAll(cs);
  }

  lemma PartialReplyOfCommand(st: State, s: seq<Byte>, more: seq<Byte>, clock: Clock)
    requires Valid(st) && s != [] && ParseOne(s).Incomplete? && ParseOne(s + more).Complete?
    ensures TailReply(st, s) <= Exec(st, ParseOne(s + more).cmd, clock).out
  {
  }

  lemma PartialReplyGrows(st: State, s: seq<Byte>, more: seq<Byte>)
    requires Valid(st)
    ensures TailReply(st, s) <= TailReply(st, s + more)
  {
  }

  /** A stream that does not yet hold one complete command has changed nothing, and what it
      has been sent is a prefix of what any continuation is sent. */
  lemma TailPrefix(st: State, tail: seq<Byte>, more: seq<Byte>, clock: Clock)
    requires Valid(st) && ParseOne(tail).Incomplete?
    ensures Serve(st, tail, clock).st == st
    ensures Serve(st, tail, clock).out <= Serve(st, tail + more, clock).out
  {
    hide *;
    ServeStuck(st, tail, clock);
    if ParseOne(tail + more).Incomplete? {
      PartialReplyGrows(st, tail, more);
      ServeStuck(st, tail + more, clock);
    } else {
      ServeStep(st, tail + more, clock);
      if tail == [] {
        EmptyTailReply(st);
      } else {
        PartialReplyOfCommand(st, tail, more, clock);
      }
    }
  }

  lemma EmptyTailReply(st: State)
    requires Valid(st)
    ensures TailReply(st, []) == []
  {
  }

  lemma ServeUnfold(st: State, s: seq<Byte>, clock: Clock)
    requires Valid(st)
    ensures var r := ExecAll(st, Split(s).cmds, clock);
            Serve(st, s, clock) == Outcome(r.st, r.out + TailReply(r.st, Split(s).tail),
                                           if Split(s).tail == [] then Eof else Truncated)
  {
  }

  /** Truncation is all or nothing. After any prefix `a` of a stream the server has run
      exactly the commands complete in `a`; the rest of the stream only adds commands and
      only adds output. */
  lemma PrefixMonotone(st: State, a: seq<Byte>, b: seq<Byte>, clock: Clock)
    requires Valid(st)
    ensures Serve(st, a, clock).st == ExecAll(st, Split(a).cmds, clock).st
    ensures Split(a).cmds <= Split(a + b).cmds
    ensures Serve(st, a, clock).out <= Serve(st, a + b, clock).out
  {
    hide *;
    var r := ExecAll(st, Split(a).cmds, clock);
    var tail := Split(a).tail;
    SplitSound(a);
    ServeUnfold(st, a, clock);
    ServeStuck(r.st, tail, clock);
    TailPrefix(r.st, tail, b, clock);
    SplitAppend(a, b);
    ServeConcat(st, a, b, clock);
  }

  /** A session is a fold over its input: serving a + b is serving a's complete commands and
      then a's unfinished tail followed by b. */
  lemma ServeConcat(st: State, a: seq<Byte>, b: seq<Byte>, clock: Clock)
    requires Valid(st)
    ensures var r := ExecAll(st, Split(a).cmds, clock);
            var q := Serve(r.st, Split(a).tail + b, clock);
            Serve(st, a + b, clock) == Outcome(q.st, r.out + q.out, q.end)
  {
    hide *;
    SplitAppend(a, b);
    var r := ExecAll(st, Split(a).cmds, clock);
    var rest := Split(a).tail + b;
    var e := ExecAll(r.st, Split(rest).cmds, clock);
    ExecAllAppend(st, Split(a).cmds, Split(rest).cmds, clock);
    ServeUnfold(st, a + b, clock);
    ServeUnfold(r.st, rest, clock);
    Assoc(r.out, e.out, TailReply(e.st, Split(rest).tail));
  }

  /** Sessions whose input stops between commands can be joined end to end. */
  lemma ServeSequence(st: State, a: seq<Byte>, b: seq<Byte>, clock: Clock)
    requires Valid(st) && Serve(st, a, clock).end == Eof
    ensures var r := Serve(st, a, clock);
            var q := Serve(r.st, b, clock);
            Serve(st, a + b, clock) == Outcome(q.st, r.out + q.out, q.end)
  {
    hide *;
    ServeConcat(st, a, b, clock);
    ServeUnfold(st, a, clock);
    EmptyTailReply(ExecAll(st, Split(a).cmds, clock).st);
    assert Split(a).tail + b == b;
  }
}
