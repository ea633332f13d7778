/** Control sessions: what the server answers to each request and what a whole session leaves
    behind, with the loops that do it. */
module ControlSession {
  import opened Proto
  import opened ServerSpec
  import opened Control
  import opened ControlReply
  import opened VDisk
  import opened ServerLoop

  /** What the host supplies: the text of the error for a file it cannot open, and which
      characters are printed as themselves in quoted text. */
  datatype Host = Host(failure: Path -> string, printable: char -> bool)

  // ------------------------------------------------------------- quoting

  function Hex(n: nat): string {
    var digit := ["0123456789abcdef"[n % 16]];
    if n < 16 then digit else Hex(n / 16) + digit
  }

  function Escaped(c: char, host: Host): string {
    if c == '"' || c == '\\' then ['\\', c]
    else if c == '\0' then "\\0"
    else if c == '\t' then "\\t"
    else if c == '\r' then "\\r"
    else if c == '\n' then "\\n"
    else if host.printable(c) then [c]
    else "\\u{" + Hex(c as int) + "}"
  }

  function EscapeAll(s: string, host: Host): string {
    if s == "" then "" else Escaped(s[0], host) + EscapeAll(s[1..], host)
  }

  function Quoted(s: string, host: Host): string { "\"" + EscapeAll(s, host) + "\"" }

  // ------------------------------------------------------------- answers

  /** Mounted drives from slot `from` on, in ascending order. */
  function DriveRows(st: State, from: nat): seq<Row>
    decreases 256 - from
  {
    if from >= 256 then []
    else if from in st.drives then
      [DriveRow(from, st.drives[from].sectorCount, st.drives[from].name)] + DriveRows(st, from + 1)
    else DriveRows(st, from + 1)
  }

  /** Channels from `from` on that are open or hold bytes. */
  function ChannelRows(st: State, from: nat): seq<Row>
    requires Valid(st)
    decreases CHANNELS - from
  {
    if from >= CHANNELS then []
    else if st.open[from] || st.inbox[from] != [] || st.outbox[from] != [] then
      [ChannelRow(from, st.open[from], |st.inbox[from]|, |st.outbox[from]|)] + ChannelRows(st, from + 1)
    else ChannelRows(st, from + 1)
  }

  datatype Answer = Answer(st: State, result: Result)

  function Respond(st: State, request: Request, host: Host, clock: Clock): (a: Answer)
    requires Valid(st)
    ensures Valid(a.st)
  {
    match request
    case DoMount(slot, path) =>
      Answer(Apply(st, Mount(slot, path, false), clock).st,
             if path in st.names then Mounted(slot, SectorCount(|st.files[st.names[path]]|), path)
             else MountFailed(host.failure(path)))
    case DoUnmount(slot) => Answer(Apply(st, Unmount(slot), clock).st, Unmounted(slot))
    case DoStatus => Answer(st, Listing(DriveRows(st, 0) + ChannelRows(st, 0)))
    case DoQuit => Answer(st, Bye)
    case _ => Answer(st, Refused(Refusal(request, host)))
  }

  function Refusal(request: Request, host: Host): string {
    match request
    case BadSlot(text) => "slot must be a u8 (got " + Quoted(text, host) + ")"
    case MountUsage => "usage: MOUNT <slot> <path>"
    case UnmountUsage => "usage: UNMOUNT <slot>"
    case UnknownVerb(verb) => "unknown verb: " + verb
    case _ => ""
  }

  datatype Transcript = Transcript(st: State, replies: seq<Result>)

  function Session(st: State, requests: seq<Request>, host: Host, clock: Clock): (t: Transcript)
    requires Valid(st)
    ensures Valid(t.st) && |t.replies| == |requests|
    decreases |requests|
  {
    if requests == [] then Transcript(st, [])
    else
      var a := Respond(st, requests[0], host, clock);
      var rest := Session(a.st, requests[1..], host, clock);
      Transcript(rest.st, [a.result] + rest.replies)
  }

  function Output(replies: seq<Result>): string {
    if replies == [] then "" else ReplyText(replies[0]) + Output(replies[1..])
  }

  // ---------------------------------------------------------- the server

  method DriveSummary(server: Server) returns (rows: seq<Row>)
    requires server.Valid()
    ensures rows == DriveRows(server.Abs(), 0)
  {
    hide DriveRows;
    rows := [];
    for slot := 0 to 256
      invariant rows + DriveRows(server.Abs(), slot) == DriveRows(server.Abs(), 0)
    {
      DriveRowsStep(server.Abs(), slot);
      if slot in server.drives {
        var disk := server.drives[slot];
        rows := rows + [DriveRow(slot, disk.sectorCount, disk.path)];
      }
    }
    DriveRowsStep(server.Abs(), 256);
  }

  lemma DriveRowsStep(st: State, from: nat)
    ensures DriveRows(st, from) ==
            if from >= 256 then []
            else (if from in st.drives then [DriveRow(from, st.drives[from].sectorCount, st.drives[from].name)] else [])
                 + DriveRows(st, from + 1)
  {
  }

  predicate IsRowOf(st: State, r: Row, from: nat) {
    r.DriveRow? && r.slot >= from && r.slot in st.drives
    && r.sectors == st.drives[r.slot].sectorCount && r.name == st.drives[r.slot].name
  }

  /** One row for each mounted drive from slot `from` on, in strictly ascending order of slot. */
  predicate Lists(rows: seq<Row>, st: State, from: nat) {
    && (forall i :: 0 <= i < |rows| ==> IsRowOf(st, rows[i], from))
    && (forall i, j :: 0 <= i < j < |rows| ==> rows[i].slot < rows[j].slot)
    && (forall slot :: slot in st.drives && slot >= from ==>
          DriveRow(slot, st.drives[slot].sectorCount, st.drives[slot].name) in rows)
  }

  lemma {:induction false} DriveRowsExact(st: State, from: nat)
    ensures Lists(DriveRows(st, from), st, from)
    decreases 256 - from
  {
    if from < 256 {
      DriveRowsExact(st, from + 1);
      ListsStep(DriveRows(st, from + 1), st, from);
    }
  }

  lemma ListsStep(rest: seq<Row>, st: State, from: nat)
    requires from < 256 && Lists(rest, st, from + 1)
    ensures from in st.drives ==>
              Lists([DriveRow(from, st.drives[from].sectorCount, st.drives[from].name)] + rest, st, from)
    ensures from !in st.drives ==> Lists(rest, st, from)
  {
  }

  function ChannelRowOf(st: State, ch: nat): Row
    requires Valid(st) && ch < CHANNELS
  {
    ChannelRow(ch, st.open[ch], |st.inbox[ch]|, |st.outbox[ch]|)
  }

  predicate InUse(st: State, ch: nat)
    requires Valid(st) && ch < CHANNELS
  {
    st.open[ch] || |st.inbox[ch]| > 0 || |st.outbox[ch]| > 0
  }

  predicate IsChannelRowOf(st: State, r: Row, from: nat)
    requires Valid(st)
  {
    r.ChannelRow? && from <= r.channel < CHANNELS && InUse(st, r.channel) && r == ChannelRowOf(st, r.channel)
  }

  /** One row, true to the state, for each channel from `from` on that is open or holds bytes, and
      for no other, in strictly ascending order. */
  predicate ListsChannels(rows: seq<Row>, st: State, from: nat)
    requires Valid(st)
  {
    && (forall i :: 0 <= i < |rows| ==> IsChannelRowOf(st, rows[i], from))
    && (forall i, j :: 0 <= i < j < |rows| ==> rows[i].channel < rows[j].channel)
    && (forall ch :: from <= ch < CHANNELS && InUse(st, ch) ==> ChannelRowOf(st, ch) in rows)
  }

  lemma {:induction false} ChannelRowsExact(st: State, from: nat)
    requires Valid(st)
    ensures ListsChannels(ChannelRows(st, from), st, from)
    decreases CHANNELS - from
  {
    if from < CHANNELS {
      hide InUse, ListsChannels;
      ChannelRowsExact(st, from + 1);
      ListsChannelsStep(ChannelRows(st, from + 1), st, from);
      InUseMeans(st, from);
    } else {
      assert ChannelRows(st, from) == [];
    }
  }

  lemma InUseMeans(st: State, ch: nat)
    requires Valid(st) && ch < CHANNELS
    ensures InUse(st, ch) <==> st.open[ch] || st.inbox[ch] != [] || st.outbox[ch] != []
  {
  }

  lemma ListsChannelsStep(rest: seq<Row>, st: State, from: nat)
    requires Valid(st) && from < CHANNELS && ListsChannels(rest, st, from + 1)
    ensures ListsChannels(if InUse(st, from) then [ChannelRowOf(st, from)] + rest else rest, st, from)
  {
    hide InUse, Valid;
    forall i | 0 <= i < |rest| ensures IsChannelRowOf(st, rest[i], from) {
      assert IsChannelRowOf(st, rest[i], from + 1);
    }
    if InUse(st, from) {
      var rows := [ChannelRowOf(st, from)] + rest;
      assert IsChannelRowOf(st, rows[0], from);
      hide ChannelRowOf;
      forall i | 0 <= i < |rows| ensures IsChannelRowOf(st, rows[i], from) {
        if i > 0 { assert rows[i] == rest[i - 1]; }
      }
      forall ch | from <= ch < CHANNELS && InUse(st, ch) ensures ChannelRowOf(st, ch) in rows {
        if ch > from { assert ChannelRowOf(st, ch) in rest; }
      }
    }
  }

  lemma ChannelRowsStep(st: State, from: nat)
    requires Valid(st)
    ensures ChannelRows(st, from) ==
            if from >= CHANNELS then []
            else (if st.open[from] || st.inbox[from] != [] || st.outbox[from] != []
                  then [ChannelRow(from, st.open[from], |st.inbox[from]|, |st.outbox[from]|)] else [])
                 + ChannelRows(st, from + 1)
  {
  }

  method ChannelSummary(server: Server) returns (rows: seq<Row>)
    requires server.Valid()
    ensures rows == ChannelRows(server.Abs(), 0)
  {
    hide ChannelRows;
    rows := [];
    for ch := 0 to CHANNELS
      invariant rows + ChannelRows(server.Abs(), ch) == ChannelRows(server.Abs(), 0)
    {
      ChannelRowsStep(server.Abs(), ch);
      if server.open[ch] || |server.inbox[ch]| > 0 || |server.outbox[ch]| > 0 {
        rows := rows + [ChannelRow(ch, server.open[ch], |server.inbox[ch]|, |server.outbox[ch]|)];
      }
    }
    ChannelRowsStep(server.Abs(), CHANNELS);
  }

  lemma RowsTextStep(rows: seq<Row>)
    requires rows != []
    ensures RowsText(rows) == RowText(rows[0]) + "\n" + RowsText(rows[1..])
  {
  }

  method PrintRows(rows: seq<Row>) returns (out: string)
    ensures out == RowsText(rows)
  {
    hide RowText, RowsText;
    out := "";
    assert rows[0..] == rows;
    for i := 0 to |rows|
      invariant out + RowsText(rows[i..]) == RowsText(rows)
    {
      RowsTextStep(rows[i..]);
      assert rows[i..][1..] == rows[i + 1..];
      TextAssoc(out, RowText(rows[i]) + "\n", RowsText(rows[i + 1..]));
      out := out + (RowText(rows[i]) + "\n");
    }
    NoRows();
  }

  lemma NoRows()
    ensures RowsText([]) == ""
  {
  }

  lemma PlainReply(r: Result)
    requires !r.Listing?
    ensures ReplyText(r) == Lead(r) + FreeText(r) + "\n"
  {
  }

  /** The server has answered `request` with `response`. */
  twostate predicate Answered(server: Server, request: Request, host: Host, response: string)
    requires old(server.Valid()) && server.Valid()
    reads server, server.volume
  {
    var a := Respond(old(server.Abs()), request, host, server.clock);
    server.Abs() == a.st && response == ReplyText(a.result)
  }

  method ControlMount(server: Server, slot: Byte, path: Path, host: Host) returns (response: string)
    requires server.Valid()
    modifies server`drives
    ensures server.Valid() && Answered(server, DoMount(slot, path), host, response)
  {
    hide ReplyText, Digits;
    var found := server.MountDsk(slot, path, false);
    if found {
      assert server.Abs().drives[slot] == Opened(server.volume.files, server.volume.names, path, false);
      var sectors, name := server.drives[slot].sectorCount, server.drives[slot].path;
      PlainReply(Mounted(slot, sectors, name));
      response := "OK mounted slot " + Digits(slot) + " sectors=" + Digits(sectors) + " path=" + name + "\n";
    } else {
      PlainReply(MountFailed(host.failure(path)));
      response := "ERROR mount failed: " + host.failure(path) + "\n";
    }
  }

  method ControlUnmount(server: Server, slot: Byte, host: Host) returns (response: string)
    requires server.Valid()
    modifies server`drives
    ensures server.Valid() && Answered(server, DoUnmount(slot), host, response)
  {
    hide ReplyText, Digits;
    server.Unmount(slot);
    PlainReply(Unmounted(slot));
    response := "OK unmounted slot " + Digits(slot) + "\n";
  }

  method ControlStatus(server: Server, host: Host) returns (response: string)
    requires server.Valid()
    ensures Answered(server, DoStatus, host, response)
  {
    hide RowsText, DriveRows, ChannelRows;
    var drives := DriveSummary(server);
    var channels := ChannelSummary(server);
    var rows := PrintRows(drives + channels);
    response := rows + "OK" + "\n";
  }

  method HandleControlCommand(server: Server, line: string, host: Host) returns (response: string)
    requires server.Valid()
    modifies server`drives
    ensures server.Valid() && Answered(server, Interpret(line), host, response)
  {
    hide ReplyText, Quoted, Uppercase, Words, ParseU8, DriveRows, ChannelRows;
    var words := Words(line);
    var verb := Uppercase(words[0]);
    var refusal;
    if verb == "MOUNT" {
      if |words| < 3 {
        refusal := "usage: MOUNT <slot> <path>";
      } else {
        var slot := ParseU8(words[1]);
        if slot.Some? {
          response := ControlMount(server, slot.value, words[2], host);
          return;
        }
        refusal := "slot must be a u8 (got " + Quoted(words[1], host) + ")";
      }
    } else if verb == "UNMOUNT" {
      if |words| < 2 {
        refusal := "usage: UNMOUNT <slot>";
      } else {
        var slot := ParseU8(words[1]);
        if slot.Some? {
          response := ControlUnmount(server, slot.value, host);
          return;
        }
        refusal := "slot must be a u8 (got " + Quoted(words[1], host) + ")";
      }
    } else if verb == "STATUS" {
      response := ControlStatus(server, host);
      return;
    } else if verb == "QUIT" {
      PlainReply(Bye);
      return "BYE" + "" + "\n";
    } else {
      refusal := "unknown verb: " + verb;
    }
    PlainReply(Refused(refusal));
    response := "ERROR " + refusal + "\n";
  }

  lemma SessionStep(st: State, requests: seq<Request>, host: Host, clock: Clock)
    requires Valid(st) && requests != []
    ensures var a := Respond(st, requests[0], host, clock);
            Session(st, requests, host, clock) ==
            var rest := Session(a.st, requests[1..], host, clock); Transcript(rest.st, [a.result] + rest.replies)
  {
  }

  lemma SessionDone(st: State, host: Host, clock: Clock)
    requires Valid(st)
    ensures Session(st, [], host, clock) == Transcript(st, []) && Output([]) == ""
  {
  }

  lemma {:induction false} OutputConcat(xs: seq<Result>, ys: seq<Result>)
    ensures Output(xs + ys) == Output(xs) + Output(ys)
  {
    hide ReplyText;
    if xs == [] {
      assert xs + ys == ys;
    } else {
      assert (xs + ys)[1..] == xs[1..] + ys;
      OutputConcat(xs[1..], ys);
    }
  }

  lemma ByeEndsSession(r: Result)
    ensures "BYE" <= ReplyText(r) <==> r.Bye?
  {
    hide Digits;
    var s := ReplyText(r);
    if r.Bye? {
      assert s[..3] == "BYE";
    } else if Rows(r) != [] {
      assert s[0] == RowText(Rows(r)[0])[0];
    } else {
      assert s[0] == Lead(r)[0];
    }
  }

  lemma ByeIsQuit(st: State, request: Request, host: Host, clock: Clock)
    requires Valid(st)
    ensures Respond(st, request, host, clock).result.Bye? <==> request == DoQuit
  {
  }

  /** Part of a session is done; the rest starts from the state it left. */
  predicate Continues(whole: Transcript, done: seq<Result>, rest: Transcript) {
    whole.st == rest.st && whole.replies == done + rest.replies
  }

  lemma ContinuesStep(whole: Transcript, done: seq<Result>, st: State, requests: seq<Request>, host: Host, clock: Clock)
    requires Valid(st) && requests != [] && Continues(whole, done, Session(st, requests, host, clock))
    ensures var a := Respond(st, requests[0], host, clock);
            Continues(whole, done + [a.result], Session(a.st, requests[1..], host, clock))
            && Output(done + [a.result]) == Output(done) + ReplyText(a.result)
  {
    hide Respond, ReplyText;
    var a := Respond(st, requests[0], host, clock);
    SessionStep(st, requests, host, clock);
    OutputConcat(done, [a.result]);
    assert [a.result][1..] == [];
  }

  /** One control session. It runs every line, skips blank ones and stops after BYE. */
  method HandleControl(server: Server, stream: string, host: Host) returns (out: string)
    requires server.Valid()
    modifies server`drives
    ensures server.Valid()
    ensures var t := Session(old(server.Abs()), Requests(stream), host, server.clock);
            server.Abs() == t.st && out == Output(t.replies)
  {
    hide Session, Output, Respond, ReplyText, Requests, Interpret, Trim, FirstLine;
    ghost var whole := Session(server.Abs(), Requests(stream), host, server.clock);
    ghost var done: seq<Result> := [];
    var rest := stream;
    out := "";
    SessionDone(server.Abs(), host, server.clock);
    while rest != ""
      invariant server.Valid() && out == Output(done)
      invariant Continues(whole, done, Session(server.Abs(), Requests(rest), host, server.clock))
      decreases |rest|
    {
      RequestsStep(rest);
      var trimmed := Trim(FirstLine(rest));
      if trimmed != "" {
        ghost var st, requests := server.Abs(), Requests(rest);
        ContinuesStep(whole, done, st, requests, host, server.clock);
        var response := HandleControlCommand(server, trimmed, host);
        ghost var a := Respond(st, requests[0], host, server.clock);
        ByeEndsSession(a.result);
        ByeIsQuit(st, requests[0], host, server.clock);
        done := done + [a.result];
        out := out + response;
        if "BYE" <= response {
          SessionDone(server.Abs(), host, server.clock);
          assert done + [] == done;
          return;
        }
      }
      rest := AfterLine(rest);
    }
    RequestsDone();
    SessionDone(server.Abs(), host, server.clock);
    assert done + [] == done;
  }

  // ------------------------------------------------------------- framing

  lemma {:induction false} EscapeAllOneLine(s: string, host: Host)
    ensures OneLine(EscapeAll(s, host))
  {
    if s != "" {
      EscapeAllOneLine(s[1..], host);
      HexOneLine(s[0] as int);
    }
  }

  lemma {:induction false} HexOneLine(n: nat)
    ensures OneLine(Hex(n))
  {
    if n >= 16 { HexOneLine(n / 16); }
  }

  /** The texts a request carries into its reply are single lines. */
  predicate OneLineRequest(r: Request) {
    && (r.DoMount? ==> OneLine(r.path))
    && (r.UnknownVerb? ==> OneLine(r.verb))
  }

  lemma TrimOneLine(s: string)
    requires OneLine(s)
    ensures OneLine(Trim(s))
  {
    TrimStartOneLine(s);
  }

  lemma {:induction false} TrimStartOneLine(s: string)
    requires OneLine(s)
    ensures OneLine(TrimStart(s))
  {
    if s != "" && IsSpace(s[0]) { TrimStartOneLine(s[1..]); }
  }

  lemma InterpretOneLine(line: string)
    requires OneLine(line)
    ensures OneLineRequest(Interpret(line))
  {
  }

  /** Whatever a client sends, the requests that come of it are of that kind. */
  lemma {:induction false} RequestsOneLine(stream: string, i: nat)
    requires i < |Requests(stream)|
    ensures OneLineRequest(Requests(stream)[i])
    decreases |stream|
  {
    hide Interpret, Trim, Requests, OneLineRequest;
    if stream == "" { RequestsDone(); } else {
      RequestsStep(stream);
      var line, rest := Trim(FirstLine(stream)), AfterLine(stream);
      TrimOneLine(FirstLine(stream));
      InterpretOneLine(line);
      if line == "" {
        RequestsOneLine(rest, i);
      } else if i > 0 {
        RequestsOneLine(rest, i - 1);
      }
    }
  }

  lemma {:induction false} DriveRowsAre(st: State, from: nat)
    ensures RowsQuiet(DriveRows(st, from)) <==>
            forall slot :: slot in st.drives && slot >= from ==> LaterLinesQuiet(st.drives[slot].name)
    decreases 256 - from
  {
    hide LaterLinesQuiet;
    if from < 256 {
      DriveRowsAre(st, from + 1);
      var rows, rest := DriveRows(st, from), DriveRows(st, from + 1);
      if from in st.drives {
        assert rows[0].name == st.drives[from].name;
        assert forall i :: 1 <= i < |rows| ==> rows[i] == rest[i - 1];
        assert forall i :: 0 <= i < |rest| ==> rest[i] == rows[i + 1];
      }
    }
  }

  lemma {:induction false} ChannelRowsQuiet(st: State, from: nat)
    requires Valid(st)
    ensures RowsQuiet(ChannelRows(st, from))
    decreases CHANNELS - from
  {
    if from < CHANNELS { ChannelRowsQuiet(st, from + 1); }
  }

  /** When the reply to a request can be read whole, in terms of the state and the request. */
  predicate Readable(st: State, request: Request, host: Host) {
    match request
    case DoMount(_, path) => path in st.names || OneLine(host.failure(path))
    case DoStatus => forall slot :: slot in st.drives ==> LaterLinesQuiet(st.drives[slot].name)
    case _ => true
  }

  lemma RefusalOneLine(request: Request, host: Host)
    requires OneLineRequest(request)
    ensures OneLine(Refusal(request, host))
  {
    if request.BadSlot? {
      hide *;
      var q := Quoted(request.text, host);
      assert OneLine(q) by { QuotedOneLine(request.text, host); }
      BadSlotOneLine(q);
    }
  }

  lemma BadSlotOneLine(q: string)
    requires OneLine(q)
    ensures OneLine("slot must be a u8 (got " + q + ")")
  {
  }

  lemma QuotedOneLine(s: string, host: Host)
    ensures OneLine(Quoted(s, host))
  {
    hide EscapeAll;
    EscapeAllOneLine(s, host);
  }

  lemma RespondFramed(st: State, request: Request, host: Host, clock: Clock)
    requires Valid(st) && OneLineRequest(request)
    ensures Framed(Respond(st, request, host, clock).result) <==> Readable(st, request, host)
  {
    hide LaterLinesQuiet, Apply, RowQuiet, DriveRows, ChannelRows, SectorCount;
    match request
    case DoStatus => StatusFramed(st);
    case DoMount(_, _) =>
    case DoUnmount(_) =>
    case DoQuit =>
    case _ =>
      hide OneLine, Refusal;
      RefusalOneLine(request, host);
  }

  lemma StatusFramed(st: State)
    requires Valid(st)
    ensures RowsQuiet(DriveRows(st, 0) + ChannelRows(st, 0)) <==>
            forall slot :: slot in st.drives ==> LaterLinesQuiet(st.drives[slot].name)
  {
    hide LaterLinesQuiet, RowQuiet, DriveRows, ChannelRows;
    DriveRowsAre(st, 0);
    ChannelRowsQuiet(st, 0);
    var xs, ys := DriveRows(st, 0), ChannelRows(st, 0);
    assert forall i :: 0 <= i < |xs| ==> (xs + ys)[i] == xs[i];
  }

  // ---------------------------------------------------- whole sessions

  /** A client that keeps reading replies, one after the other. */
  function ReadAll(s: string): seq<string>
    decreases |s|
  {
    if s == "" then [] else
      var r := ClientReads(s);
      [r] + ReadAll(s[|r|..])
  }

  function Texts(replies: seq<Result>): seq<string> {
    seq(|replies|, i requires 0 <= i < |replies| => ReplyText(replies[i]))
  }

  lemma ReadAllStep(text: string, more: string)
    requires text != ""
    ensures ReadAll(text + more) == [ClientReads(text + more)] + ReadAll((text + more)[|ClientReads(text + more)|..])
    ensures (text + more)[|text|..] == more
  {
  }

  lemma TextsStep(replies: seq<Result>)
    requires replies != []
    ensures Texts(replies) == [ReplyText(replies[0])] + Texts(replies[1..])
  {
  }

  predicate AllFramed(replies: seq<Result>) { forall i :: 0 <= i < |replies| ==> Framed(replies[i]) }

  lemma AllFramedStep(replies: seq<Result>)
    requires replies != []
    ensures AllFramed(replies) <==> Framed(replies[0]) && AllFramed(replies[1..])
  {
  }

  /** A client gets exactly the replies, one by one, if and only if each is framed. */
  lemma {:induction false} ReadAllIff(replies: seq<Result>)
    ensures ReadAll(Output(replies)) == Texts(replies) <==> AllFramed(replies)
  {
    hide ReplyText, ReadAll, Texts, ClientReads, Framed, AllFramed;
    if replies == [] {
      ReadAllNone();
    } else {
      var text, more := ReplyText(replies[0]), Output(replies[1..]);
      ReplyReadWhole(replies[0], more);
      assert text != "" by { ReplyNotEmpty(replies[0]); }
      ReadAllStep(text, more);
      TextsStep(replies);
      AllFramedStep(replies);
      ReadAllIff(replies[1..]);
      var all, texts := ReadAll(text + more), Texts(replies);
      assert all[0] == ClientReads(text + more) && texts[0] == text;
      if Framed(replies[0]) {
        assert all[1..] == ReadAll(more) && texts[1..] == Texts(replies[1..]);
        assert all == [text] + ReadAll(more) && texts == [text] + Texts(replies[1..]);
      }
    }
  }

  lemma ReadAllNone()
    ensures ReadAll("") == [] && Texts([]) == [] && AllFramed([])
  {
  }

  lemma ReplyNotEmpty(r: Result)
    ensures ReplyText(r) != ""
  {
  }

  /** Every request of the session finds a state in which its reply is readable. */
  predicate ReadableSession(st: State, requests: seq<Request>, host: Host, clock: Clock)
    requires Valid(st)
    decreases |requests|
  {
    requests == []
    || (Readable(st, requests[0], host)
        && ReadableSession(Respond(st, requests[0], host, clock).st, requests[1..], host, clock))
  }

  lemma {:induction false} SessionFramed(st: State, requests: seq<Request>, host: Host, clock: Clock)
    requires Valid(st) && forall i :: 0 <= i < |requests| ==> OneLineRequest(requests[i])
    ensures AllFramed(Session(st, requests, host, clock).replies) <==> ReadableSession(st, requests, host, clock)
    decreases |requests|
  {
    hide Respond, OneLineRequest, Framed, Readable;
    if requests != [] {
      RespondFramed(st, requests[0], host, clock);
      var a := Respond(st, requests[0], host, clock);
      SessionFramed(a.st, requests[1..], host, clock);
      SessionStep(st, requests, host, clock);
      AllFramedStep(Session(st, requests, host, clock).replies);
    }
  }

  /** Framing over whole sessions, exactly. For every input a client may send, reading the server's
      output with the stop rule gives one whole reply per request, in order, if and only if each
      failing mount gets a one-line error text and each STATUS finds no drive name with a
      terminal-looking line after its first. */
  lemma SessionReadWhole(st: State, stream: string, host: Host, clock: Clock)
    requires Valid(st)
    ensures var t := Session(st, Requests(stream), host, clock);
            ReadAll(Output(t.replies)) == Texts(t.replies) <==> ReadableSession(st, Requests(stream), host, clock)
  {
    hide Session, Output, ReadAll, Texts, Requests, ReadableSession, OneLineRequest;
    forall i | 0 <= i < |Requests(stream)| ensures OneLineRequest(Requests(stream)[i]) { RequestsOneLine(stream, i); }
    SessionFramed(st, Requests(stream), host, clock);
    ReadAllIff(Session(st, Requests(stream), host, clock).replies);
  }

  /** Every mounted drive has a one-line name. */
  predicate NamesOneLine(st: State) { forall slot :: slot in st.drives ==> OneLine(st.drives[slot].name) }

  lemma RespondKeepsNames(st: State, request: Request, host: Host, clock: Clock)
    requires Valid(st) && NamesOneLine(st) && OneLineRequest(request)
    ensures NamesOneLine(Respond(st, request, host, clock).st)
    ensures request.DoStatus? ==> Readable(st, request, host)
  {
  }

  lemma {:induction false} NamesStayOneLine(st: State, requests: seq<Request>, host: Host, clock: Clock)
    requires Valid(st) && NamesOneLine(st) && forall i :: 0 <= i < |requests| ==> OneLineRequest(requests[i])
    requires forall p :: OneLine(host.failure(p))
    ensures NamesOneLine(Session(st, requests, host, clock).st) && ReadableSession(st, requests, host, clock)
    decreases |requests|
  {
    hide Respond, OneLineRequest, NamesOneLine, OneLine;
    if requests != [] {
      RespondKeepsNames(st, requests[0], host, clock);
      NamesStayOneLine(Respond(st, requests[0], host, clock).st, requests[1..], host, clock);
    }
  }

  /** No control session can bring the bad case about: with one-line error texts, starting from
      one-line drive names, every session is read whole and leaves one-line drive names. */
  lemma ControlSessionsSafe(st: State, stream: string, host: Host, clock: Clock)
    requires Valid(st) && NamesOneLine(st) && forall p :: OneLine(host.failure(p))
    ensures var t := Session(st, Requests(stream), host, clock);
            NamesOneLine(t.st) && ReadAll(Output(t.replies)) == Texts(t.replies)
  {
    hide Session, Output, ReadAll, Texts, Requests, ReadableSession, OneLineRequest, NamesOneLine, OneLine;
    forall i | 0 <= i < |Requests(stream)| ensures OneLineRequest(Requests(stream)[i]) { RequestsOneLine(stream, i); }
    NamesStayOneLine(st, Requests(stream), host, clock);
    SessionReadWhole(st, stream, host, clock);
  }

  // ---------------------------------------------------------- end to end

  lemma OneReply(st: State, request: Request, host: Host, clock: Clock)
    requires Valid(st)
    ensures var a := Respond(st, request, host, clock);
            Session(st, [request], host, clock) == Transcript(a.st, [a.result])
            && Output([a.result]) == ReplyText(a.result)
  {
  }

  /** `dw mount` from the client's terminal to the mount table and back: for every path that can
      be printed on one line, the slot ends up holding exactly that file, or nothing changes and
      the client sees an error, according to whether the file exists. */
  lemma MountEndToEnd(st: State, slot: Byte, path: Path, host: Host, clock: Clock)
    requires Valid(st) && (path in st.names || OneLine(host.failure(path)))
    requires path != "" && '\n' !in path && !IsSpace(path[|path| - 1])
    ensures var t := Session(st, Requests(PrintMount(slot, path)), host, clock);
            var reply := ClientReads(Output(t.replies));
            reply == Output(t.replies)
            && ("ERROR" <= reply <==> path !in st.names)
            && t.st == if path !in st.names then st
                       else st.(drives := st.drives[slot := Opened(st.files, st.names, path, false)])
  {
    hide ClientReads, ReplyText, Requests, PrintMount, SectorCount, Output, Session;
    MountRoundTrip(slot, path);
    var request := DoMount(slot, path);
    OneReply(st, request, host, clock);
    var r := Respond(st, request, host, clock).result;
    assert ReplyText(r) + "" == ReplyText(r);
    ReplyReadWhole(r, "");
  }
}
