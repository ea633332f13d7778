/** Control sessions as a client sees them: for every kind of line, what happens to the server and
    the exact text that comes back. */
module ControlLines {
  import opened Proto
  import opened ServerSpec
  import opened Control
  import opened ControlReply
  import opened ControlSession

  // --------------------------------------------------------------- words

  /** The same word up to the case of ASCII letters; `verb` is in capitals. */
  predicate Spells(w: string, verb: string) {
    |w| == |verb| && forall i :: 0 <= i < |w| ==> w[i] == verb[i] || (w[i] as int == verb[i] as int + 32)
  }

  predicate Capitals(verb: string) { forall i :: 0 <= i < |verb| ==> 'A' <= verb[i] <= 'Z' }

  lemma SpellsIff(w: string, verb: string)
    requires Capitals(verb)
    ensures Uppercase(w) == verb <==> Spells(w, verb)
  {
    if Uppercase(w) == verb {
      forall i | 0 <= i < |w| ensures w[i] == verb[i] || (w[i] as int == verb[i] as int + 32) {
        assert Upper(w[i]) == Uppercase(w)[i] == verb[i];
      }
    }
    if Spells(w, verb) {
      forall i | 0 <= i < |w| ensures Upper(w[i]) == verb[i] {
        assert 'A' <= verb[i] <= 'Z';
      }
    }
  }

  predicate OneWord(w: string) { forall i :: 0 <= i < |w| ==> !IsSpace(w[i]) }

  lemma WordsOf(a: string, c: char, b: string, d: char, rest: string)
    requires OneWord(a) && OneWord(b) && IsSpace(c) && IsSpace(d)
    ensures Words(a) == [a] && Words(a + [c] + b) == [a, b] && Words(a + [c] + b + [d] + rest) == [a, b, rest]
  {
    hide Before, IsSpace;
    Cut(a, c, b);
    Cut(b, d, rest);
    Cut(a, c, b + [d] + rest);
    assert a + [c] + b + [d] + rest == a + [c] + (b + [d] + rest);
  }

  lemma Cut(a: string, c: char, rest: string)
    requires OneWord(a) && IsSpace(c)
    ensures var s := a + [c] + rest;
            Before(s, IsSpace) == |a| && s[..|a|] == a && s[|a| + 1..] == rest
    ensures Before(a, IsSpace) == |a|
  {
    BeforeUnique(a + [c] + rest, IsSpace, |a|);
    BeforeUnique(a, IsSpace, |a|);
  }

  lemma FirstWord(a: string, c: char, rest: string)
    requires OneWord(a) && IsSpace(c)
    ensures Words(a)[0] == a && Words(a + [c] + rest)[0] == a
  {
    hide IsSpace;
    Cut(a, c, rest);
  }

  lemma AreCapitals()
    ensures Capitals("MOUNT") && Capitals("UNMOUNT") && Capitals("STATUS") && Capitals("QUIT")
  {
  }

  /** The line is MOUNT, one white space, a word, one white space, a path. */
  lemma MountLineMeans(w: string, c: char, slot: string, d: char, path: Path)
    requires Spells(w, "MOUNT") && OneWord(slot) && IsSpace(c) && IsSpace(d)
    ensures Interpret(w) == MountUsage && Interpret(w + [c] + slot) == MountUsage
    ensures Interpret(w + [c] + slot + [d] + path) ==
            match ParseU8(slot) case Some(n) => DoMount(n, path) case None => BadSlot(slot)
  {
    hide Words, Uppercase, Spells, ParseU8, IsSpace;
    AreCapitals();
    SpellsIff(w, "MOUNT");
    assert OneWord(w) by { SpelledWord(w, "MOUNT"); }
    WordsOf(w, c, slot, d, path);
  }

  lemma SpelledWord(w: string, verb: string)
    requires Spells(w, verb) && Capitals(verb)
    ensures OneWord(w)
  {
    forall i | 0 <= i < |w| ensures !IsSpace(w[i]) { assert 'A' <= verb[i] <= 'Z'; }
  }

  lemma UnmountLineMeans(w: string, c: char, slot: string, d: char, more: string)
    requires Spells(w, "UNMOUNT") && OneWord(slot) && IsSpace(c) && IsSpace(d)
    ensures Interpret(w) == UnmountUsage
    ensures var r := match ParseU8(slot) case Some(n) => DoUnmount(n) case None => BadSlot(slot);
            Interpret(w + [c] + slot) == r && Interpret(w + [c] + slot + [d] + more) == r
  {
    hide Words, Uppercase, Spells, ParseU8, IsSpace;
    AreCapitals();
    SpellsIff(w, "UNMOUNT");
    assert OneWord(w) by { SpelledWord(w, "UNMOUNT"); }
    WordsOf(w, c, slot, d, more);
  }

  /** STATUS and QUIT, whatever follows, and every other word. */
  lemma OtherLinesMean(w: string, c: char, more: string)
    requires OneWord(w) && IsSpace(c)
    ensures Spells(w, "STATUS") ==> Interpret(w) == DoStatus && Interpret(w + [c] + more) == DoStatus
    ensures Spells(w, "QUIT") ==> Interpret(w) == DoQuit && Interpret(w + [c] + more) == DoQuit
    ensures !Spells(w, "MOUNT") && !Spells(w, "UNMOUNT") && !Spells(w, "STATUS") && !Spells(w, "QUIT") ==>
              Interpret(w) == UnknownVerb(Uppercase(w)) && Interpret(w + [c] + more) == UnknownVerb(Uppercase(w))
  {
    hide Words, Uppercase, Spells, ParseU8, IsSpace;
    AreCapitals();
    SpellsIff(w, "MOUNT");
    SpellsIff(w, "UNMOUNT");
    SpellsIff(w, "STATUS");
    SpellsIff(w, "QUIT");
    FirstWord(w, c, more);
  }

  // ------------------------------------------------------------- numbers

  function Zeros(k: nat): string { seq(k, _ => '0') }

  /** Decimal notation, digit by digit. */
  lemma DigitsMean(n: nat)
    ensures n < 10 ==> Digits(n) == ["0123456789"[n]]
    ensures n >= 10 ==> Digits(n) == Digits(n / 10) + ["0123456789"[n % 10]]
  {
    assert "0123456789"[n % 10] == '0' + (n % 10) as char;
  }

  lemma {:induction false} ZerosParse(k: nat)
    ensures ParseDigits(Zeros(k)) == Some(0)
  {
    if k > 0 {
      assert Zeros(k)[..k - 1] == Zeros(k - 1);
      ZerosParse(k - 1);
    }
  }

  lemma {:induction false} PaddedParse(k: nat, n: nat)
    ensures ParseDigits(Zeros(k) + Digits(n)) == Some(n)
    decreases n
  {
    hide ParseDigits;
    var last := '0' + (n % 10) as char;
    if n < 10 {
      ZerosParse(k);
      ParseSnoc(Zeros(k), last);
    } else {
      PaddedParse(k, n / 10);
      ParseSnoc(Zeros(k) + Digits(n / 10), last);
      assert Zeros(k) + (Digits(n / 10) + [last]) == (Zeros(k) + Digits(n / 10)) + [last];
    }
  }

  lemma ParseSnoc(t: string, c: char)
    requires ParseDigits(t).Some? && '0' <= c <= '9'
    ensures ParseDigits(t + [c]) == Some(10 * ParseDigits(t).value + (c as int - '0' as int))
  {
    var s := t + [c];
    assert s[..|s| - 1] == t;
  }

  lemma {:induction false} ParsedIsPadded(s: string, n: nat) returns (k: nat)
    requires s != "" && ParseDigits(s) == Some(n)
    ensures s == Zeros(k) + Digits(n)
    decreases |s|
  {
    var t, c := s[..|s| - 1], s[|s| - 1];
    assert s == t + [c];
    var m := ParseDigits(t).value;
    if t == "" {
      k := 0;
    } else {
      k := ParsedIsPadded(t, m);
      if m == 0 {
        k := k + 1;
        assert Zeros(k) == Zeros(k - 1) + "0";
      } else {
        assert n / 10 == m;
      }
    }
  }

  /** The slot argument, exactly: an optional plus sign, any number of leading zeros, and the decimal
      notation of a number below 256. Anything else is refused. */
  lemma SlotIff(s: string, n: Byte)
    ensures ParseU8(s) == Some(n) <==> exists k: nat :: s == Zeros(k) + Digits(n) || s == "+" + (Zeros(k) + Digits(n))
  {
    var body := if s != "" && s[0] == '+' then s[1..] else s;
    if ParseU8(s) == Some(n) {
      var k := ParsedIsPadded(body, n);
      assert s == body || s == "+" + body;
    }
    if k: nat :| s == Zeros(k) + Digits(n) || s == "+" + (Zeros(k) + Digits(n)) {
      PaddedParse(k, n);
      NotPlus(k, n);
      assert body == Zeros(k) + Digits(n);
    }
  }

  lemma NotPlus(k: nat, n: nat)
    ensures (Zeros(k) + Digits(n))[0] != '+'
  {
    DigitsNotSpace(n, 0);
  }

  // ------------------------------------------------------- whole sessions

  predicate Ended(a: string) { a == "" || a[|a| - 1] == '\n' }

  lemma FirstLineKept(a: string, b: string)
    requires a != "" && Ended(a)
    ensures FirstLine(a + b) == FirstLine(a) && AfterLine(a + b) == AfterLine(a) + b && Ended(AfterLine(a))
  {
    var n := Before(a, IsLineFeed);
    assert IsLineFeed(a[|a| - 1]);
    assert forall i :: 0 <= i < |a| ==> (a + b)[i] == a[i];
    BeforeUnique(a + b, IsLineFeed, n);
    assert (a + b)[..n] == a[..n] && (a + b)[n + 1..] == a[n + 1..] + b;
  }

  /** Sessions go line by line: complete lines sent first are handled first, and what follows is
      handled after them, unless they held a QUIT; then it is not looked at. */
  lemma {:induction false} RequestsConcat(a: string, b: string)
    requires Ended(a)
    ensures Requests(a + b) == if DoQuit in Requests(a) then Requests(a) else Requests(a) + Requests(b)
    decreases |a|
  {
    hide Requests, FirstLine, AfterLine, Trim, Interpret;
    if a == "" {
      assert a + b == b;
      RequestsDone();
    } else {
      FirstLineKept(a, b);
      RequestsStep(a);
      RequestsStep(a + b);
      var line, rest := Trim(FirstLine(a)), AfterLine(a);
      RequestsConcat(rest, b);
      if line != "" && Interpret(line) != DoQuit {
        OneMore(Interpret(line), Requests(rest), Requests(b));
      }
    }
  }

  lemma OneMore(r: Request, xs: seq<Request>, ys: seq<Request>)
    ensures [r] + (xs + ys) == ([r] + xs) + ys
    ensures r != DoQuit ==> (DoQuit in [r] + xs <==> DoQuit in xs)
  {
  }

  predicate AllSpace(s: string) { forall i :: 0 <= i < |s| ==> IsSpace(s[i]) && s[i] != '\n' }

  lemma {:induction false} SpaceTrims(s: string)
    requires forall i :: 0 <= i < |s| ==> IsSpace(s[i])
    ensures Trim(s) == ""
  {
    if s != "" { SpaceTrims(s[1..]); }
  }

  /** A blank line is skipped. */
  lemma BlankLineSkipped(s: string)
    requires AllSpace(s)
    ensures Requests(s + "\n") == []
  {
    hide Requests, Trim;
    BeforeUnique(s + "\n", IsLineFeed, |s|);
    assert (s + "\n")[..|s|] == s;
    assert AfterLine(s + "\n") == "";
    SpaceTrims(FirstLine(s + "\n"));
    RequestsStep(s + "\n");
    RequestsDone();
  }

  lemma TrimPads(a: string, line: string, b: string)
    requires Plain(line)
    requires forall i :: 0 <= i < |a| ==> IsSpace(a[i])
    requires forall i :: 0 <= i < |b| ==> IsSpace(b[i])
    ensures Trim(a + line + b) == line
  {
    hide IsSpace, TrimEnd;
    assert a + line + b == a + (line + b);
    TrimStartPads(a, line + b);
    TrimEndPads(line, b);
  }

  lemma {:induction false} TrimStartPads(a: string, s: string)
    requires s != "" && !IsSpace(s[0]) && forall i :: 0 <= i < |a| ==> IsSpace(a[i])
    ensures TrimStart(a + s) == s
  {
    hide IsSpace;
    if a == "" {
      assert a + s == s;
    } else {
      assert (a + s)[1..] == a[1..] + s;
      TrimStartPads(a[1..], s);
    }
  }

  lemma {:induction false} TrimEndPads(s: string, b: string)
    requires s != "" && !IsSpace(s[|s| - 1]) && forall i :: 0 <= i < |b| ==> IsSpace(b[i])
    ensures TrimEnd(s + b) == s
    decreases |b|
  {
    hide IsSpace;
    if b == "" {
      assert s + b == s;
    } else {
      assert (s + b)[..|s + b| - 1] == s + b[..|b| - 1];
      TrimEndPads(s, b[..|b| - 1]);
    }
  }

  /** White space around a line does not matter, nor does a missing line feed at the very end. */
  lemma PaddedLine(a: string, line: string, b: string)
    requires Plain(line) && AllSpace(a) && AllSpace(b)
    ensures Requests(a + line + b + "\n") == [Interpret(line)] && Requests(a + line + b) == [Interpret(line)]
  {
    hide Requests, Trim, Interpret, IsSpace;
    var s := a + line + b;
    assert forall i :: 0 <= i < |s| ==> s[i] != '\n';
    BeforeUnique(s + "\n", IsLineFeed, |s|);
    BeforeUnique(s, IsLineFeed, |s|);
    assert (s + "\n")[..|s|] == s && s[..|s|] == s && (s + "\n")[|s| + 1..] == "";
    var cut := if s[|s| - 1] == '\r' then s[..|s| - 1] else s;
    assert FirstLine(s + "\n") == cut && FirstLine(s) == cut;
    assert Trim(cut) == line by {
      TrimPads(a, line, b);
      if s[|s| - 1] == '\r' { CarriageReturnGoes(a, line, b); }
    }
    RequestsStep(s + "\n");
    RequestsStep(s);
    RequestsDone();
  }

  lemma LastChar(a: string, line: string, b: string)
    requires line != ""
    ensures var s := a + line + b; s[|s| - 1] == if b == "" then line[|line| - 1] else b[|b| - 1]
  {
  }

  lemma CarriageReturnGoes(a: string, line: string, b: string)
    requires Plain(line) && AllSpace(a) && AllSpace(b) && (a + line + b)[|a + line + b| - 1] == '\r'
    ensures var s := a + line + b; Trim(s[..|s| - 1]) == line
  {
    var s := a + line + b;
    LastChar(a, line, b);
    assert s[..|s| - 1] == a + line + b[..|b| - 1];
    TrimPads(a, line, b[..|b| - 1]);
  }

  /** A line as a client might send it: not blank, no line feed, no white space around it. */
  predicate Plain(line: string) {
    line != "" && !IsSpace(line[0]) && !IsSpace(line[|line| - 1]) && '\n' !in line
  }

  /** What a session of this one line leaves behind and sends back. */
  predicate Answers(st: State, line: string, host: Host, clock: Clock, st': State, text: string)
    requires Valid(st)
  {
    var t := Session(st, Requests(line + "\n"), host, clock);
    t.st == st' && Output(t.replies) == text
  }

  lemma OneLineSession(st: State, line: string, host: Host, clock: Clock)
    requires Valid(st) && Plain(line)
    ensures var a := Respond(st, Interpret(line), host, clock);
            Answers(st, line, host, clock, a.st, ReplyText(a.result))
  {
    hide Requests, Interpret, Respond, ReplyText, Session, Output;
    OneRequest(line);
    OneReply(st, Interpret(line), host, clock);
  }

  /** MOUNT: the slot holds the file the path stands for, or nothing changes; and the text. */
  lemma MountLine(st: State, line: string, slot: Byte, path: Path, host: Host, clock: Clock)
    requires Valid(st) && Plain(line) && Interpret(line) == DoMount(slot, path)
    ensures path in st.names ==>
              var f := st.names[path];
              var n := SectorCount(|st.files[f]|);
              Answers(st, line, host, clock, st.(drives := st.drives[slot := Handle(path, f, n, false)]),
                      "OK mounted slot " + Digits(slot) + " sectors=" + Digits(n) + " path=" + path + "\n")
    ensures path !in st.names ==>
              Answers(st, line, host, clock, st, "ERROR mount failed: " + host.failure(path) + "\n")
  {
    hide Answers, ReplyText, Digits, SectorCount, Interpret;
    OneLineSession(st, line, host, clock);
    PlainReply(Respond(st, Interpret(line), host, clock).result);
  }

  /** UNMOUNT: the slot is empty, whether or not it was. */
  lemma UnmountLine(st: State, line: string, slot: Byte, host: Host, clock: Clock)
    requires Valid(st) && Plain(line) && Interpret(line) == DoUnmount(slot)
    ensures Answers(st, line, host, clock, st.(drives := st.drives - {slot}),
                    "OK unmounted slot " + Digits(slot) + "\n")
  {
    hide Answers, ReplyText, Digits, Interpret;
    OneLineSession(st, line, host, clock);
    PlainReply(Unmounted(slot));
    var lead := "OK unmounted slot " + Digits(slot);
    assert lead + "" == lead;
  }

  /** Lines that change nothing, and what they are told. */
  lemma QuietLines(st: State, line: string, host: Host, clock: Clock)
    requires Valid(st) && Plain(line)
    ensures Interpret(line) == DoQuit ==> Answers(st, line, host, clock, st, "BYE\n")
    ensures Interpret(line) == MountUsage ==>
              Answers(st, line, host, clock, st, "ERROR " + "usage: MOUNT <slot> <path>" + "\n")
    ensures Interpret(line) == UnmountUsage ==>
              Answers(st, line, host, clock, st, "ERROR " + "usage: UNMOUNT <slot>" + "\n")
    ensures Interpret(line).BadSlot? ==>
              Answers(st, line, host, clock, st,
                      "ERROR " + ("slot must be a u8 (got " + Quoted(Interpret(line).text, host) + ")") + "\n")
    ensures Interpret(line).UnknownVerb? ==>
              Answers(st, line, host, clock, st, "ERROR " + ("unknown verb: " + Interpret(line).verb) + "\n")
    ensures Interpret(line) == DoStatus ==>
              Answers(st, line, host, clock, st, RowsText(DriveRows(st, 0) + ChannelRows(st, 0)) + "OK\n")
  {
    hide Answers, ReplyText, Interpret, Quoted, RowsText, DriveRows, ChannelRows;
    OneLineSession(st, line, host, clock);
    var r := Respond(st, Interpret(line), host, clock).result;
    if r.Listing? { ListingReply(r.rows); } else { PlainReply(r); }
    assert r.Bye? ==> Lead(r) + FreeText(r) + "\n" == "BYE\n";
  }

  lemma ListingReply(rows: seq<Row>)
    ensures ReplyText(Listing(rows)) == RowsText(rows) + "OK\n"
  {
    hide RowsText;
    assert "OK" + "" + "\n" == "OK\n";
  }

  // ------------------------------------------------------------ terminal lines

  /** Where the client stops: after ERROR or BYE, whatever follows; after OK alone; and after OK and
      a blank before more text, but not after OK and any other character. */
  lemma TerminalLines(c: char, x: string, y: string)
    requires exists i :: 0 <= i < |x| && !IsSpace(x[i])
    ensures IsTerminal("ERROR" + y) && IsTerminal("BYE" + y) && IsTerminal("OK\n")
    ensures IsTerminal("OK" + [c] + x) <==> c == ' '
    ensures c != 'O' && c != 'E' && c != 'B' ==> !IsTerminal([c] + y)
  {
    hide TrimEnd;
    TerminalByHead("ERROR", y);
    TerminalByHead("BYE", y);
    assert "OK" + "\n" == "OK\n";
    PlainOkTerminal();
    var i :| 0 <= i < |x| && !IsSpace(x[i]);
    var s := "OK" + [c] + x;
    assert s[3 + i] == x[i];
    VisibleKept(s, 3 + i);
    var t := TrimEnd(s);
    assert t[..4 + i] == s[..4 + i];
    assert t[0] == 'O' && t[1] == 'K' && t[2] == c;
    var u := TrimEnd([c] + y);
    assert u != "" ==> u[0] == c;
  }

  // -------------------------------------------------------------- reading rows back

  predicate IsBlank(c: char) { c == ' ' }

  /** The part of a text before its first blank, and the part after it. */
  function Head1(s: string): string { s[..Before(s, IsBlank)] }

  function Tail1(s: string): (r: string)
    ensures |r| <= |s|
  {
    var n := Before(s, IsBlank);
    if n < |s| then s[n + 1..] else ""
  }

  function Number(s: string): nat {
    match ParseDigits(s) case Some(n) => n case None => 0
  }

  /** The number after `key`. */
  function Counted(s: string, key: string): nat { if key <= s then Number(s[|key|..]) else 0 }

  /** A client's reading of one line of a STATUS reply. */
  function ReadRow(s: string): Option<Row> {
    var kind, r1 := Head1(s), Tail1(s);
    var first, r2 := Head1(r1), Tail1(r1);
    var second, r3 := Head1(r2), Tail1(r2);
    if kind == "drive" && Number(first) < 256 && Number(second) < 0x1_0000_0000 then
      Some(DriveRow(Number(first), Number(second), r3))
    else if kind == "vserial" && Number(first) < 256 then
      Some(ChannelRow(Number(first), second == "open", Counted(Head1(r3), "inbox="), Counted(Tail1(r3), "outbox=")))
    else None
  }

  predicate NoBlank(s: string) { forall i :: 0 <= i < |s| ==> s[i] != ' ' }

  lemma SplitAt(a: string, b: string)
    requires NoBlank(a)
    ensures Head1(a + " " + b) == a && Tail1(a + " " + b) == b
  {
    var s := a + " " + b;
    assert forall i :: 0 <= i < |a| ==> s[i] == a[i];
    BeforeUnique(s, IsBlank, |a|);
    assert s[..|a|] == a && s[|a| + 1..] == b;
  }

  lemma DigitsNoBlank(n: nat)
    ensures NoBlank(Digits(n)) && Number(Digits(n)) == n
  {
    DigitsParse(n);
    forall i | 0 <= i < |Digits(n)| ensures Digits(n)[i] != ' ' { DigitsNotSpace(n, i); }
  }

  lemma CountedBack(key: string, n: nat)
    requires NoBlank(key)
    ensures Counted(key + Digits(n), key) == n && NoBlank(key + Digits(n))
  {
    DigitsNoBlank(n);
    assert (key + Digits(n))[|key|..] == Digits(n);
  }

  lemma DriveRowReads(slot: Byte, sectors: U32, name: string)
    ensures ReadRow(RowText(DriveRow(slot, sectors, name))) == Some(DriveRow(slot, sectors, name))
  {
    hide Digits, Head1, Tail1, Number;
    var a, b := Digits(slot), Digits(sectors);
    DigitsNoBlank(slot);
    DigitsNoBlank(sectors);
    var r2 := b + " " + name;
    var r1 := a + " " + r2;
    assert RowText(DriveRow(slot, sectors, name)) == "drive" + " " + r1 by { DriveText(slot, sectors, name); }
    hide RowText;
    SplitAt("drive", r1);
    SplitAt(a, r2);
    SplitAt(b, name);
  }

  lemma DriveText(slot: Byte, sectors: U32, name: string)
    ensures RowText(DriveRow(slot, sectors, name)) ==
            "drive" + " " + (Digits(slot) + " " + (Digits(sectors) + " " + name))
  {
    hide Digits;
    Regrouped("drive", Digits(slot), Digits(sectors), name);
    assert "drive " == "drive" + " ";
  }

  lemma Regrouped(v: string, a: string, b: string, c: string)
    ensures (v + " ") + a + " " + b + " " + c == v + " " + (a + " " + (b + " " + c))
  {
  }

  lemma ChannelRowReads(ch: Byte, open: bool, i: nat, o: nat)
    ensures ReadRow(RowText(ChannelRow(ch, open, i, o))) == Some(ChannelRow(ch, open, i, o))
  {
    hide Digits, Head1, Tail1, Number, Counted;
    var a, state := Digits(ch), if open then "open" else "closed";
    var x, y := "inbox=" + Digits(i), "outbox=" + Digits(o);
    DigitsNoBlank(ch);
    CountedBack("inbox=", i);
    CountedBack("outbox=", o);
    var r3 := x + " " + y;
    var r2 := state + " " + r3;
    var r1 := a + " " + r2;
    assert RowText(ChannelRow(ch, open, i, o)) == "vserial" + " " + r1 by { ChannelText(ch, open, i, o); }
    hide RowText;
    SplitAt("vserial", r1);
    SplitAt(a, r2);
    SplitAt(state, r3);
    SplitAt(x, y);
  }

  lemma ChannelText(ch: Byte, open: bool, i: nat, o: nat)
    ensures var state := if open then "open" else "closed";
            RowText(ChannelRow(ch, open, i, o)) ==
            "vserial" + " " +
            (Digits(ch) + " " + (state + " " + ("inbox=" + Digits(i) + " " + ("outbox=" + Digits(o)))))
  {
    hide Digits;
    var state := if open then "open" else "closed";
    Flattened("vserial", Digits(ch), state, "inbox=", Digits(i), "outbox=", Digits(o));
    assert "vserial " == "vserial" + " " && " open" == " " + "open" && " closed" == " " + "closed";
    assert " inbox=" == " " + "inbox=" && " outbox=" == " " + "outbox=";
  }

  lemma Flattened(v: string, a: string, b: string, k: string, x: string, l: string, y: string)
    ensures (v + " ") + a + (" " + b) + (" " + k) + x + (" " + l) + y ==
            v + " " + (a + " " + (b + " " + (k + x + " " + (l + y))))
  {
  }

  /** Every row of a STATUS reply can be read back: slot, sectors and name of a drive; number, state
      and the two counts of a channel. */
  lemma RowReadsBack(r: Row)
    ensures ReadRow(RowText(r)) == Some(r)
  {
    hide ReadRow, RowText;
    match r
    case DriveRow(slot, sectors, name) => DriveRowReads(slot, sectors, name);
    case ChannelRow(ch, open, i, o) => ChannelRowReads(ch, open, i, o);
  }

  // ------------------------------------------------------ reading quoted text back

  function HexValue(c: char): nat {
    if '0' <= c <= '9' then c as int - '0' as int
    else if 'a' <= c <= 'f' then c as int - 'a' as int + 10
    else 0
  }

  function ReadHex(s: string): nat {
    if s == "" then 0 else 16 * ReadHex(s[..|s| - 1]) + HexValue(s[|s| - 1])
  }

  lemma {:induction false} HexReads(n: nat)
    ensures ReadHex(Hex(n)) == n && '}' !in Hex(n)
  {
    var s, digit := Hex(n), "0123456789abcdef"[n % 16];
    assert HexValue(digit) == n % 16 && digit != '}';
    if n < 16 {
      assert s == [digit] && s[..0] == "";
      assert ReadHex("") == 0;
    } else {
      HexReads(n / 16);
      assert s == Hex(n / 16) + [digit] && s[..|s| - 1] == Hex(n / 16);
    }
  }

  predicate IsBrace(c: char) { c == '}' }

  function ToChar(n: nat): char {
    if n < 0xD800 || 0xE000 <= n < 0x11_0000 then n as char else '?'
  }

  /** How a reader undoes the escapes. */
  function Unescape(s: string): string
    decreases |s|
  {
    if s == "" then ""
    else if s[0] != '\\' || |s| < 2 then [s[0]] + Unescape(s[1..])
    else if s[1] == '0' then ['\0'] + Unescape(s[2..])
    else if s[1] == 't' then ['\t'] + Unescape(s[2..])
    else if s[1] == 'r' then ['\r'] + Unescape(s[2..])
    else if s[1] == 'n' then ['\n'] + Unescape(s[2..])
    else if s[1] == 'u' then
      var n := Before(s, IsBrace);
      if 3 <= n < |s| then [ToChar(ReadHex(s[3..n]))] + Unescape(s[n + 1..]) else ""
    else [s[1]] + Unescape(s[2..])
  }

  lemma UnescapeOne(c: char, host: Host, rest: string)
    ensures Unescape(Escaped(c, host) + rest) == [c] + Unescape(rest)
  {
    hide ReadHex, Hex, Before;
    var e := Escaped(c, host);
    var s := e + rest;
    if e == [c] {
      assert s[1..] == rest;
    } else if |e| == 2 {
      assert s[2..] == rest;
    } else {
      HexReads(c as int);
      var h := Hex(c as int);
      var n := 3 + |h|;
      assert s == "\\u{" + h + "}" + rest;
      assert s[3..n] == h && s[n] == '}' && s[n + 1..] == rest;
      assert forall i :: 3 <= i < n ==> s[i] == h[i - 3];
      BeforeUnique(s, IsBrace, n);
    }
  }

  /** Quoted text can be read back, whatever it was: the quotes and the escapes lose nothing. */
  lemma {:induction false} QuotedReadsBack(s: string, host: Host)
    ensures Unescape(EscapeAll(s, host)) == s
    ensures Quoted(s, host) == "\"" + EscapeAll(s, host) + "\""
  {
    if s != "" {
      hide Escaped, Unescape;
      QuotedReadsBack(s[1..], host);
      UnescapeOne(s[0], host, EscapeAll(s[1..], host));
    }
  }
}
