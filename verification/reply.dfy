/** Control-socket replies: how the server frames them and where the client stops reading. */
module ControlReply {
  import opened Proto
  import opened ServerSpec
  import opened Control

  // ------------------------------------------------------------- replies

  /** What running a request produced, with the free texts that go into its reply. */
  datatype Result =
    | Mounted(slot: Byte, sectors: U32, name: string)
    | MountFailed(reason: string)
    | Unmounted(slot: Byte)
    | Listing(rows: seq<Row>)
    | Bye
    | Refused(message: string)

  datatype Row =
    | DriveRow(slot: Byte, sectors: U32, name: string)
    | ChannelRow(channel: Byte, open: bool, inbox: nat, outbox: nat)

  function RowText(r: Row): string {
    match r
    case DriveRow(slot, sectors, name) => "drive " + Digits(slot) + " " + Digits(sectors) + " " + name
    case ChannelRow(ch, open, i, o) =>
      "vserial " + Digits(ch) + (if open then " open" else " closed") + " inbox=" + Digits(i) + " outbox=" + Digits(o)
  }

  function RowsText(rows: seq<Row>): string {
    if rows == [] then "" else RowText(rows[0]) + "\n" + RowsText(rows[1..])
  }

  /** The last line of every reply: fixed words, then a free text. */
  function Lead(r: Result): string {
    match r
    case Mounted(slot, sectors, _) => "OK mounted slot " + Digits(slot) + " sectors=" + Digits(sectors) + " path="
    case MountFailed(_) => "ERROR mount failed: "
    case Unmounted(slot) => "OK unmounted slot " + Digits(slot)
    case Listing(_) => "OK"
    case Bye => "BYE"
    case Refused(_) => "ERROR "
  }

  function FreeText(r: Result): string {
    match r
    case Mounted(_, _, name) => name
    case MountFailed(reason) => reason
    case Refused(message) => message
    case _ => ""
  }

  function Rows(r: Result): seq<Row> { if r.Listing? then r.rows else [] }

  function ReplyText(r: Result): string { RowsText(Rows(r)) + (Lead(r) + FreeText(r)) + "\n" }

  predicate Failed(r: Result) { r.MountFailed? || r.Refused? }

  predicate OneLine(s: string) { '\n' !in s }

  // ---------------------------------------------------------- the client

  /** The client's stop rule, on a line with its trailing white space removed. */
  predicate IsTerminal(line: string) {
    var t := TrimEnd(line);
    t == "OK" || "OK " <= t || "ERROR" <= t || "BYE" <= t
  }

  /** Up to and including the first line feed, or everything. */
  function NextLine(s: string): (line: string)
    ensures line <= s && (s != "" ==> line != "")
  {
    var n := Before(s, IsLineFeed);
    if n < |s| then s[..n + 1] else s
  }

  function ClientReads(s: string): (r: string)
    ensures r <= s && (s != "" ==> r != "")
    decreases |s|
  {
    if s == "" then ""
    else
      var line := NextLine(s);
      if IsTerminal(line) then line
      else
        assert s == line + s[|line|..];
        line + ClientReads(s[|line|..])
  }

  lemma ClientStep(s: string)
    requires s != ""
    ensures var line := NextLine(s);
            ClientReads(s) == if IsTerminal(line) then line else line + ClientReads(s[|line|..])
  {
  }

  method ControlRequest(stream: string) returns (reply: string)
    ensures reply == ClientReads(stream)
  {
    hide IsTerminal, NextLine, ClientReads;
    reply := "";
    var rest := stream;
    while rest != ""
      invariant ClientReads(stream) == reply + ClientReads(rest)
      decreases |rest|
    {
      ClientStep(rest);
      var line := NextLine(rest);
      TextAssoc(reply, line, ClientReads(rest[|line|..]));
      reply := reply + line;
      if IsTerminal(line) {
        return;
      }
      rest := rest[|line|..];
    }
    ClientDone();
  }

  lemma ClientDone()
    ensures ClientReads("") == ""
  {
  }

  lemma TextAssoc(a: string, b: string, c: string)
    ensures (a + b) + c == a + (b + c)
  {
  }

  lemma NextLineOf(line: string, more: string)
    requires OneLine(line)
    ensures NextLine(line + "\n" + more) == line + "\n"
    ensures (line + "\n" + more)[|line| + 1..] == more
  {
    var s := line + "\n" + more;
    assert forall i :: 0 <= i < |line| ==> s[i] == line[i];
    BeforeUnique(s, IsLineFeed, |line|);
  }

  lemma ReadsOneLine(line: string, more: string)
    requires OneLine(line)
    ensures ClientReads(line + "\n" + more) ==
            if IsTerminal(line + "\n") then line + "\n" else line + "\n" + ClientReads(more)
  {
    hide NextLine, IsTerminal, ClientReads;
    NextLineOf(line, more);
    ClientStep(line + "\n" + more);
  }

  // ------------------------------------------------------ texts of many lines

  /** A text without a line feed, or else its part before the first. */
  function Head(s: string): (h: string)
    ensures h <= s && OneLine(h)
  {
    s[..Before(s, IsLineFeed)]
  }

  /** No line of `s` stops the client. */
  predicate Quiet(s: string)
    decreases |s|
  {
    !IsTerminal(Head(s) + "\n") && (OneLine(s) || Quiet(AfterLine(s)))
  }

  /** No line of `s` after its first stops the client. */
  predicate LaterLinesQuiet(s: string) { OneLine(s) || Quiet(AfterLine(s)) }

  lemma HeadAndRest(s: string)
    ensures OneLine(s) ==> Head(s) == s
    ensures !OneLine(s) ==> s == Head(s) + "\n" + AfterLine(s) && |AfterLine(s)| < |s|
  {
  }

  lemma Regroup(h: string, t: string, more: string)
    ensures (h + "\n" + t) + "\n" + more == h + "\n" + (t + "\n" + more)
    ensures more == "" ==> t + "\n" + more == t + "\n" && (h + "\n" + t) + "\n" + more == (h + "\n" + t) + "\n"
  {
  }

  lemma {:induction false} ReadsText(s: string, more: string)
    ensures Quiet(s) ==> ClientReads(s + "\n" + more) == s + "\n" + ClientReads(more)
    ensures !Quiet(s) ==> ClientReads(s + "\n" + more) <= s + "\n"
    decreases |s|
  {
    hide IsTerminal, ClientReads, Head, AfterLine;
    HeadAndRest(s);
    if OneLine(s) {
      ReadsOneLine(s, more);
    } else {
      var h, t := Head(s), AfterLine(s);
      ReadsText(t, more);
      ReadsOneLine(h, t + "\n" + more);
      Regroup(h, t, more);
      Regroup(h, t, "");
      Regroup(h, t, ClientReads(more));
    }
  }

  lemma LeadThenText(lead: string, text: string)
    requires OneLine(lead)
    ensures Head(lead + text) == lead + Head(text)
    ensures OneLine(lead + text) <==> OneLine(text)
    ensures !OneLine(text) ==> AfterLine(lead + text) == AfterLine(text)
  {
    var n, s := Before(text, IsLineFeed), lead + text;
    assert forall i :: 0 <= i < |text| ==> s[|lead| + i] == text[i];
    assert OneLine(text) ==> n == |text|;
    BeforeUnique(s, IsLineFeed, |lead| + n);
    assert s[..|lead| + n] == lead + text[..n];
    assert n < |text| ==> s[|lead| + n + 1..] == text[n + 1..];
  }

  // ------------------------------------------------------------- listings

  predicate RowQuiet(r: Row) { r.DriveRow? ==> LaterLinesQuiet(r.name) }

  predicate RowsQuiet(rows: seq<Row>) { forall i :: 0 <= i < |rows| ==> RowQuiet(rows[i]) }

  lemma NotTerminal(line: string)
    requires line != "" && (line[0] == 'd' || line[0] == 'v')
    ensures !IsTerminal(line)
  {
  }

  lemma DigitsOneLine(n: nat)
    ensures OneLine(Digits(n))
  {
  }

  /** A row stops the client exactly if a line of its drive name, after the first, does. */
  lemma RowStops(r: Row)
    ensures Quiet(RowText(r)) <==> RowQuiet(r)
  {
    hide IsTerminal, Digits, Head, AfterLine, OneLine;
    var s := RowText(r);
    match r {
      case DriveRow(slot, sectors, name) =>
        var lead := "drive " + Digits(slot) + " " + Digits(sectors) + " ";
        assert s == lead + name;
        assert OneLine(lead) by { DriveLead(slot, sectors); }
        LeadThenText(lead, name);
        NotTerminal(Head(s) + "\n");
      case ChannelRow(ch, open, i, o) =>
        assert OneLine(s) by { ChannelOneLine(ch, open, i, o); }
        HeadAndRest(s);
        NotTerminal(s + "\n");
    }
  }

  lemma DriveLead(slot: Byte, sectors: U32)
    ensures OneLine("drive " + Digits(slot) + " " + Digits(sectors) + " ")
  {
  }

  lemma ChannelOneLine(ch: Byte, open: bool, i: nat, o: nat)
    ensures OneLine(RowText(ChannelRow(ch, open, i, o)))
  {
  }

  lemma {:induction false} ReadsRows(rows: seq<Row>, more: string)
    ensures RowsQuiet(rows) ==> ClientReads(RowsText(rows) + more) == RowsText(rows) + ClientReads(more)
    ensures !RowsQuiet(rows) ==> ClientReads(RowsText(rows) + more) <= RowsText(rows)
    decreases |rows|
  {
    hide ClientReads, RowText, Quiet, RowQuiet;
    if rows == [] {
      assert "" + more == more && "" + ClientReads(more) == ClientReads(more);
    } else {
      var row, rest := RowText(rows[0]), RowsText(rows[1..]);
      ReadsRows(rows[1..], more);
      RowStops(rows[0]);
      ReadsText(row, rest + more);
      assert RowsQuiet(rows) <==> RowQuiet(rows[0]) && RowsQuiet(rows[1..]) by {
        assert forall i :: 1 <= i < |rows| ==> rows[i] == rows[1..][i - 1];
      }
      assert RowsText(rows) + more == row + "\n" + (rest + more);
      assert RowsText(rows) + ClientReads(more) == row + "\n" + (rest + ClientReads(more));
    }
  }

  // ---------------------------------------------------------- final lines

  /** Trimming keeps everything up to a visible character. */
  lemma VisibleKept(s: string, i: nat)
    requires i < |s| && !IsSpace(s[i])
    ensures i < |TrimEnd(s)| && TrimEnd(s)[..i + 1] == s[..i + 1]
  {
  }

  /** A line that begins with one of the terminal words, visibly, is terminal. */
  lemma TerminalByHead(head: string, rest: string)
    requires head == "OK m" || head == "OK u" || head == "ERROR" || head == "BYE"
    ensures IsTerminal(head + rest)
  {
    hide TrimEnd;
    var s := head + rest;
    VisibleKept(s, |head| - 1);
    assert s[..|head|] == head;
    assert head <= TrimEnd(s);
    assert head == "OK m" || head == "OK u" ==> "OK " <= head;
  }

  lemma PlainOkTerminal()
    ensures IsTerminal("OK" + "\n")
  {
  }

  lemma LeadOneLine(r: Result)
    ensures OneLine(Lead(r))
  {
    if r.Mounted? {
      DigitsOneLine(r.slot);
      DigitsOneLine(r.sectors);
    } else if r.Unmounted? {
      DigitsOneLine(r.slot);
    }
  }

  lemma FinalIsTerminal(r: Result, text: string)
    requires r.Listing? ==> text == ""
    ensures IsTerminal(Lead(r) + text + "\n")
  {
    hide IsTerminal, Digits;
    var line := Lead(r) + text + "\n";
    match r {
      case Mounted(_, _, _) => TerminalByHead("OK m", line[4..]); assert line == "OK m" + line[4..];
      case Unmounted(_) => TerminalByHead("OK u", line[4..]); assert line == "OK u" + line[4..];
      case MountFailed(_) => TerminalByHead("ERROR", line[5..]); assert line == "ERROR" + line[5..];
      case Refused(_) => TerminalByHead("ERROR", line[5..]); assert line == "ERROR" + line[5..];
      case Bye => TerminalByHead("BYE", line[3..]); assert line == "BYE" + line[3..];
      case Listing(_) => PlainOkTerminal(); assert line == "OK" + "\n";
    }
  }

  /** The client stops at the end of the first line of the final text. */
  lemma ReadsFinal(r: Result, more: string)
    ensures var final := Lead(r) + FreeText(r);
            ClientReads(final + "\n" + more) <= final + "\n"
            && (ClientReads(final + "\n" + more) == final + "\n" <==> OneLine(FreeText(r)))
  {
    hide ClientReads, IsTerminal, Lead, Head, AfterLine, OneLine;
    var text := FreeText(r);
    var final := Lead(r) + text;
    LeadOneLine(r);
    LeadThenText(Lead(r), text);
    HeadAndRest(final);
    FinalIsTerminal(r, Head(text));
    if OneLine(final) {
      ReadsOneLine(final, more);
    } else {
      assert final + "\n" + more == Head(final) + "\n" + (AfterLine(final) + "\n" + more);
      ReadsOneLine(Head(final), AfterLine(final) + "\n" + more);
    }
  }

  /** What a reply must satisfy to be read whole. */
  predicate Framed(r: Result) { OneLine(FreeText(r)) && RowsQuiet(Rows(r)) }

  /** The client's stop rule, exactly: it never reads past a reply, and it reads the whole of it if
      and only if the free text is one line and, in a listing, no line of a drive name after its
      first looks terminal. Cut short or not, it sees ERROR first exactly when the request failed. */
  lemma ReplyReadWhole(r: Result, more: string)
    ensures ClientReads(ReplyText(r) + more) <= ReplyText(r)
    ensures ClientReads(ReplyText(r) + more) == ReplyText(r) <==> Framed(r)
    ensures "ERROR" <= ClientReads(ReplyText(r) + more) <==> Failed(r)
  {
    hide ClientReads, Lead, FreeText, RowsText, RowsQuiet, OneLine;
    var rows, final := RowsText(Rows(r)), Lead(r) + FreeText(r);
    assert ReplyText(r) + more == rows + (final + "\n" + more);
    assert ReplyText(r) == rows + (final + "\n");
    ReadsRows(Rows(r), final + "\n" + more);
    ReadsFinal(r, more);
    ReplyHead(r, more);
  }

  /** A drive name that does cut a listing short. */
  lemma NameCutsListing(slot: Byte, sectors: U32, more: string)
    ensures var r := Listing([DriveRow(slot, sectors, "a\nOK")]);
            ClientReads(ReplyText(r) + more) < ReplyText(r)
  {
    var row := DriveRow(slot, sectors, "a\nOK");
    var r := Listing([row]);
    hide ClientReads, ReplyText, IsTerminal, OneLine;
    ReplyReadWhole(r, more);
    NameNotQuiet();
    assert !RowQuiet(row);
    assert !RowQuiet(Rows(r)[0]);
  }

  lemma NameNotQuiet()
    ensures !LaterLinesQuiet("a\nOK")
  {
    var s := "a\nOK";
    hide IsTerminal;
    BeforeUnique(s, IsLineFeed, 1);
    assert AfterLine(s) == "OK";
    BeforeUnique("OK", IsLineFeed, 2);
    assert Head("OK") == "OK";
    PlainOkTerminal();
    assert s[1] == '\n';
  }

  lemma ReadsAtLeastALine(s: string)
    requires s != ""
    ensures NextLine(s) <= ClientReads(s)
  {
  }

  lemma ErrorSeen(lead: string, more: string)
    requires "ERROR " <= lead
    ensures "ERROR" <= ClientReads(lead + more)
  {
    hide ClientReads, IsTerminal;
    var s := lead + more;
    ReadsAtLeastALine(s);
    assert s[..6] == "ERROR ";
    assert forall i :: 0 <= i < 5 ==> s[i] == "ERROR"[i];
  }

  lemma ReplyHead(r: Result, more: string)
    requires ClientReads(ReplyText(r) + more) <= ReplyText(r)
    ensures "ERROR" <= ClientReads(ReplyText(r) + more) <==> Failed(r)
  {
    hide ClientReads, Digits;
    var s := ReplyText(r);
    if Failed(r) {
      assert s == Lead(r) + (FreeText(r) + "\n");
      assert s + more == Lead(r) + (FreeText(r) + "\n" + more);
      ErrorSeen(Lead(r), FreeText(r) + "\n" + more);
    } else if Rows(r) != [] {
      assert s[0] == RowText(Rows(r)[0])[0];
    } else {
      assert s[0] == Lead(r)[0];
    }
  }
}
