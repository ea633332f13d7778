/** Control-socket requests: the client prints a command line, the server cuts its input into
    lines and makes of each a request. */
module Control {
  import opened Proto
  import opened ServerSpec

  // ------------------------------------------------------------ text

  /** Unicode White_Space. */
  predicate IsSpace(c: char) {
    || '\t' <= c <= '\r' || c == ' ' || c == '\U{0085}' || c == '\U{00A0}' || c == '\U{1680}'
    || '\U{2000}' <= c <= '\U{200A}' || c == '\U{2028}' || c == '\U{2029}' || c == '\U{202F}'
    || c == '\U{205F}' || c == '\U{3000}'
  }

  function TrimEnd(s: string): (r: string)
    ensures r <= s && (r != "" ==> !IsSpace(r[|r| - 1]))
    ensures forall i :: |r| <= i < |s| ==> IsSpace(s[i])
  {
    if s != "" && IsSpace(s[|s| - 1]) then TrimEnd(s[..|s| - 1]) else s
  }

  function TrimStart(s: string): string {
    if s != "" && IsSpace(s[0]) then TrimStart(s[1..]) else s
  }

  function Trim(s: string): string { TrimEnd(TrimStart(s)) }

  /** Length of the part before the first character for which `stop` holds. */
  function Before(s: string, stop: char -> bool): (n: nat)
    ensures n <= |s| && (n < |s| ==> stop(s[n]))
    ensures forall i :: 0 <= i < n ==> !stop(s[i])
  {
    if s == "" || stop(s[0]) then 0 else 1 + Before(s[1..], stop)
  }

  lemma BeforeUnique(s: string, stop: char -> bool, n: nat)
    requires n <= |s| && (n < |s| ==> stop(s[n])) && forall i :: 0 <= i < n ==> !stop(s[i])
    ensures Before(s, stop) == n
  {
  }

  predicate IsLineFeed(c: char) { c == '\n' }

  /** The first line of a stream, without its line feed or CR LF. */
  function FirstLine(s: string): string {
    var line := s[..Before(s, IsLineFeed)];
    if line != "" && line[|line| - 1] == '\r' then line[..|line| - 1] else line
  }

  /** What follows the first line feed. */
  function AfterLine(s: string): (r: string)
    ensures s != "" ==> |r| < |s|
  {
    var n := Before(s, IsLineFeed);
    if n < |s| then s[n + 1..] else ""
  }

  function Upper(c: char): char {
    if 'a' <= c <= 'z' then ((c as int - 32) as char) else c
  }

  function Uppercase(s: string): string {
    seq(|s|, i requires 0 <= i < |s| => Upper(s[i]))
  }

  function Digits(n: nat): (s: string)
    ensures s != "" && forall i :: 0 <= i < |s| ==> '0' <= s[i] <= '9'
  {
    var last := ['0' + (n % 10) as char];
    if n < 10 then last else Digits(n / 10) + last
  }

  function ParseDigits(s: string): Option<nat> {
    if s == "" then Some(0)
    else
      var c := s[|s| - 1];
      match ParseDigits(s[..|s| - 1])
      case Some(n) => if '0' <= c <= '9' then Some(10 * n + (c as int - '0' as int)) else None
      case None => None
  }

  /** Decimal u8 as the standard library reads it: an optional plus sign, at least one digit,
      at most 255. */
  function ParseU8(s: string): Option<Byte> {
    var body := if s != "" && s[0] == '+' then s[1..] else s;
    if body == "" then None
    else match ParseDigits(body)
      case Some(n) => if n < 256 then Some(n) else None
      case None => None
  }

  lemma {:induction false} DigitsParse(n: nat)
    ensures ParseDigits(Digits(n)) == Some(n)
  {
    var s := Digits(n);
    if n < 10 {
      assert s[..|s| - 1] == "";
      assert ParseDigits("") == Some(0);
    } else {
      DigitsParse(n / 10);
      assert s[..|s| - 1] == Digits(n / 10);
    }
  }

  // --------------------------------------------------------- commands

  datatype Request =
    | DoMount(slot: Byte, path: Path)
    | DoUnmount(slot: Byte)
    | DoStatus
    | DoQuit
    | BadSlot(text: string)
    | MountUsage
    | UnmountUsage
    | UnknownVerb(verb: string)

  /** splitn(3, whitespace): at most two cuts, each at one whitespace character. */
  function Words(line: string): (ws: seq<string>)
    ensures 1 <= |ws| <= 3
  {
    var n := Before(line, IsSpace);
    if n == |line| then [line]
    else
      var rest := line[n + 1..];
      var m := Before(rest, IsSpace);
      if m == |rest| then [line[..n], rest] else [line[..n], rest[..m], rest[m + 1..]]
  }

  function Interpret(line: string): Request {
    var ws := Words(line);
    var verb := Uppercase(ws[0]);
    if verb == "MOUNT" then
      if |ws| < 3 then MountUsage
      else match ParseU8(ws[1])
        case Some(slot) => DoMount(slot, ws[2])
        case None => BadSlot(ws[1])
    else if verb == "UNMOUNT" then
      if |ws| < 2 then UnmountUsage
      else match ParseU8(ws[1])
        case Some(slot) => DoUnmount(slot)
        case None => BadSlot(ws[1])
    else if verb == "STATUS" then DoStatus
    else if verb == "QUIT" then DoQuit
    else UnknownVerb(verb)
  }

  /** The requests of a whole session: line by line, blank lines skipped, an unterminated last
      line included, nothing after QUIT. */
  function Requests(stream: string): seq<Request>
    decreases |stream|
  {
    if stream == "" then []
    else
      var line, rest := Trim(FirstLine(stream)), AfterLine(stream);
      if line == "" then Requests(rest)
      else if Interpret(line) == DoQuit then [DoQuit]
      else [Interpret(line)] + Requests(rest)
  }

  function PrintMount(slot: Byte, path: Path): string { "MOUNT " + Digits(slot) + " " + path + "\n" }

  function PrintUnmount(slot: Byte): string { "UNMOUNT " + Digits(slot) + "\n" }

  function PrintStatus(): string { "STATUS" + "\n" }

  lemma {:induction false} TrimEndAppend(a: string, b: string)
    ensures TrimEnd(a + b) == if TrimEnd(b) == "" then TrimEnd(a) else a + TrimEnd(b)
    decreases |b|
  {
    if b == "" {
      assert a + b == a;
    } else if IsSpace(b[|b| - 1]) {
      assert (a + b)[..|a + b| - 1] == a + b[..|b| - 1];
      TrimEndAppend(a, b[..|b| - 1]);
    }
  }

  lemma DigitsNotSpace(n: nat, i: nat)
    requires i < |Digits(n)|
    ensures !IsSpace(Digits(n)[i]) && Digits(n)[i] != '\n' && Digits(n)[i] != '+'
  {
  }

  lemma SlotParses(slot: Byte)
    ensures ParseU8(Digits(slot)) == Some(slot)
  {
    DigitsParse(slot);
    DigitsNotSpace(slot, 0);
  }

  /** What is left of a printed path by the time the server sees it. */
  function Surviving(path: Path): Path { TrimEnd(path[..Before(path, IsLineFeed)]) }

  lemma CutAtLineFeed(a: string, b: string)
    requires forall i :: 0 <= i < |a| ==> a[i] != '\n'
    ensures var n := Before(b, IsLineFeed);
            var s := a + b + "\n";
            |a| + n <= |s| && Before(s, IsLineFeed) == |a| + n && s[..|a| + n] == a + b[..n]
  {
    var stop := IsLineFeed;
    var n := Before(b, stop);
    var s := a + b + "\n";
    assert forall i :: 0 <= i < |b| ==> s[|a| + i] == b[i];
    assert s[|s| - 1] == '\n';
    BeforeUnique(s, stop, |a| + n);
  }

  lemma TrimmedFirstLine(s: string)
    ensures TrimEnd(FirstLine(s)) == TrimEnd(s[..Before(s, IsLineFeed)])
  {
  }

  lemma SpaceTrimsAway(a: string)
    requires a != "" && !IsSpace(a[|a| - 1])
    ensures TrimEnd(a + " ") == a
  {
  }

  lemma FirstLineOf(a: string, b: string)
    requires forall i :: 0 <= i < |a| ==> a[i] != '\n'
    requires a != "" && !IsSpace(a[|a| - 1])
    ensures TrimEnd(FirstLine(a + " " + b + "\n")) == if Surviving(b) == "" then a else a + " " + Surviving(b)
  {
    hide Before, FirstLine, TrimEnd, IsSpace;
    var head := a + " ";
    TrimmedFirstLine(head + b + "\n");
    CutAtLineFeed(head, b);
    TrimEndAppend(head, b[..Before(b, IsLineFeed)]);
    SpaceTrimsAway(a);
  }

  lemma FirstLineAlone(a: string)
    requires forall i :: 0 <= i < |a| ==> a[i] != '\n'
    requires a != "" && !IsSpace(a[|a| - 1])
    ensures TrimEnd(FirstLine(a + "\n")) == a
  {
  }

  lemma CutAtSpace(a: string, rest: string)
    requires forall i :: 0 <= i < |a| ==> !IsSpace(a[i])
    ensures var s := a + " " + rest;
            Before(s, IsSpace) == |a| && s[..|a|] == a && s[|a| + 1..] == rest
    ensures Before(a, IsSpace) == |a|
  {
    BeforeUnique(a + " " + rest, IsSpace, |a|);
    BeforeUnique(a, IsSpace, |a|);
  }

  lemma WordsOfThree(a: string, b: string, c: string)
    requires forall i :: 0 <= i < |a| ==> !IsSpace(a[i])
    requires forall i :: 0 <= i < |b| ==> !IsSpace(b[i])
    ensures Words(a + " " + b + " " + c) == [a, b, c]
    ensures Words(a + " " + b) == [a, b]
  {
    hide Before, IsSpace;
    assert a + " " + b + " " + c == a + " " + (b + " " + c);
    CutAtSpace(a, b + " " + c);
    CutAtSpace(b, c);
    CutAtSpace(a, b);
  }

  lemma UpperVerbs()
    ensures Uppercase("MOUNT") == "MOUNT" && Uppercase("UNMOUNT") == "UNMOUNT" && Uppercase("STATUS") == "STATUS"
  {
  }

  lemma HeadKept(line: string)
    requires line != "" && !IsSpace(line[0])
    ensures Trim(line) == TrimEnd(line)
  {
  }

  lemma FirstLineHead(s: string)
    requires s != "" && !IsSpace(s[0])
    ensures FirstLine(s) != "" && FirstLine(s)[0] == s[0]
  {
  }

  lemma RequestsStep(stream: string)
    requires stream != ""
    ensures var line, rest := Trim(FirstLine(stream)), AfterLine(stream);
            Requests(stream) == if line == "" then Requests(rest)
                                else if Interpret(line) == DoQuit then [DoQuit]
                                else [Interpret(line)] + Requests(rest)
  {
  }

  lemma RequestsDone()
    ensures Requests("") == []
  {
  }

  lemma AfterLineOf(a: string, b: string)
    requires forall i :: 0 <= i < |a| ==> a[i] != '\n'
    ensures AfterLine(a + b + "\n") == if '\n' in b then AfterLine(b) + "\n" else ""
  {
    hide Before;
    CutAtLineFeed(a, b);
    var n := Before(b, IsLineFeed);
    var s := a + b + "\n";
    if n < |b| {
      assert s[|a| + n + 1..] == b[n + 1..] + "\n";
    } else {
      assert '\n' !in b;
    }
  }

  lemma MountLine(slot: Byte, path: Path)
    ensures var line := Trim(FirstLine(PrintMount(slot, path)));
            line != ""
            && Interpret(line) == if Surviving(path) == "" then MountUsage else DoMount(slot, Surviving(path))
  {
    hide Before, FirstLine, TrimEnd, ParseU8, Digits, Words, Uppercase, Surviving, Trim;
    var d := Digits(slot);
    var head := "MOUNT" + " " + d;
    assert PrintMount(slot, path) == head + " " + path + "\n";
    forall i | 0 <= i < |d| ensures !IsSpace(d[i]) && d[i] != '\n' { DigitsNotSpace(slot, i); }
    FirstLineOf(head, path);
    FirstLineHead(head + " " + path + "\n");
    HeadKept(FirstLine(head + " " + path + "\n"));
    WordsOfThree("MOUNT", d, Surviving(path));
    UpperVerbs();
    SlotParses(slot);
  }

  /** What a printed MOUNT becomes, for every slot and every path whatsoever: one mount or usage
      error, and then whatever the lines after a line feed in the path amount to. */
  lemma MountReceived(slot: Byte, path: Path)
    ensures Requests(PrintMount(slot, path)) ==
            [if Surviving(path) == "" then MountUsage else DoMount(slot, Surviving(path))]
            + (if '\n' in path then Requests(AfterLine(path) + "\n") else [])
  {
    hide Before, FirstLine, Digits, Surviving, Trim, Requests, Interpret, AfterLine;
    var d := Digits(slot);
    var head := "MOUNT " + d + " ";
    assert PrintMount(slot, path) == head + path + "\n";
    forall i | 0 <= i < |d| ensures d[i] != '\n' { DigitsNotSpace(slot, i); }
    MountLine(slot, path);
    RequestsStep(PrintMount(slot, path));
    AfterLineOf(head, path);
    RequestsDone();
  }

  /** The round trip, exactly: the session a printed MOUNT starts is that one mount if and only
      if the path is not empty, holds no line feed and does not end in white space. */
  lemma MountRoundTrip(slot: Byte, path: Path)
    ensures Requests(PrintMount(slot, path)) == [DoMount(slot, path)] <==>
            path != "" && '\n' !in path && !IsSpace(path[|path| - 1])
  {
    hide Requests, PrintMount, AfterLine;
    MountReceived(slot, path);
    var n, all := Before(path, IsLineFeed), Requests(PrintMount(slot, path));
    if '\n' !in path {
      assert n == |path| && path[..n] == path;
      assert all == [all[0]];
    } else {
      assert n < |path|;
      assert |Surviving(path)| < |path|;
      assert all[0] != DoMount(slot, path);
    }
  }

  lemma OneRequest(line: string)
    requires line != "" && !IsSpace(line[0]) && !IsSpace(line[|line| - 1]) && '\n' !in line
    ensures Requests(line + "\n") == [Interpret(line)]
  {
    hide Before, FirstLine, TrimEnd, Trim, Requests, Interpret, AfterLine, IsSpace;
    FirstLineAlone(line);
    FirstLineHead(line + "\n");
    HeadKept(FirstLine(line + "\n"));
    assert line + "" + "\n" == line + "\n";
    AfterLineOf(line, "");
    RequestsStep(line + "\n");
    RequestsDone();
  }

  lemma UnmountRoundTrip(slot: Byte)
    ensures Requests(PrintUnmount(slot)) == [DoUnmount(slot)]
  {
    hide Before, ParseU8, Digits, Words, Uppercase, Requests;
    var d := Digits(slot);
    var line := "UNMOUNT" + " " + d;
    assert PrintUnmount(slot) == line + "\n";
    forall i | 0 <= i < |d| ensures !IsSpace(d[i]) && d[i] != '\n' { DigitsNotSpace(slot, i); }
    OneRequest(line);
    WordsOfThree("UNMOUNT", d, "");
    UpperVerbs();
    SlotParses(slot);
  }

  lemma StatusRoundTrip()
    ensures Requests(PrintStatus()) == [DoStatus]
  {
    hide Requests, Words, Uppercase;
    OneRequest("STATUS");
    WordsOfOne("STATUS");
    UpperVerbs();
  }

  lemma WordsOfOne(a: string)
    requires forall i :: 0 <= i < |a| ==> !IsSpace(a[i])
    ensures Words(a) == [a]
  {
  }
}
