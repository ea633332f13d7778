/** The attach client's two byte filters: line endings on the way to the terminal, the
    Ctrl-A escape on the way from the keyboard. Both carry one bit across reads. */
module Terminal {
  import opened Proto
  import opened Transport

  const CR: Byte := 0x0D
  const LF: Byte := 0x0A

  // -------------------------------------------------------- line endings

  datatype Norm = Norm(out: seq<Byte>, hadCr: bool)

  function Break(pending: bool): seq<Byte> { if pending then [CR, LF] else [] }

  function NormByte(b: Byte, hadCr: bool): Norm {
    if b == CR then Norm(Break(hadCr), true)
    else if b == LF then Norm([CR, LF], false)
    else Norm(Break(hadCr) + [b], false)
  }

  function Normalize(s: seq<Byte>, hadCr: bool): Norm
    decreases |s|
  {
    if s == [] then Norm([], hadCr)
    else
      var first := NormByte(s[0], hadCr);
      var rest := Normalize(s[1..], first.hadCr);
      Norm(first.out + rest.out, rest.hadCr)
  }

  lemma {:induction false} NormalizeAppend(a: seq<Byte>, b: seq<Byte>, hadCr: bool)
    ensures var x := Normalize(a, hadCr);
            var y := Normalize(b, x.hadCr);
            Normalize(a + b, hadCr) == Norm(x.out + y.out, y.hadCr)
    decreases |a|
  {
    if a == [] {
      assert a + b == b;
    } else {
      assert (a + b)[1..] == a[1..] + b;
      NormalizeAppend(a[1..], b, NormByte(a[0], hadCr).hadCr);
    }
  }

  method NormalizeLineEndings(input: seq<Byte>, hadCr: bool) returns (out: seq<Byte>, hadCr': bool)
    ensures Norm(out, hadCr') == Normalize(input, hadCr)
  {
    out, hadCr' := [], hadCr;
    assert Normalize(input[..0], hadCr) == Norm([], hadCr);
    hide Normalize;
    for i := 0 to |input|
      invariant Norm(out, hadCr') == Normalize(input[..i], hadCr)
    {
      var b := input[i];
      assert input[..i + 1] == input[..i] + [b];
      NormalizeAppend(input[..i], [b], hadCr);
      SingleByte(b, hadCr');
      if b == CR {
        if hadCr' {
          out := out + [CR, LF];
        }
        hadCr' := true;
      } else if b == LF {
        out := out + [CR, LF];
        hadCr' := false;
      } else {
        if hadCr' {
          out := out + [CR, LF];
        }
        out := out + [b];
        hadCr' := false;
      }
    }
    assert input[..|input|] == input;
  }

  lemma SingleByte(b: Byte, hadCr: bool)
    ensures Normalize([b], hadCr) == NormByte(b, hadCr)
  {
  }

  /** The whole-stream meaning: CR LF, a bare CR and a bare LF are each one line break,
      written CR LF; a CR at the very end is not yet known to be bare. */
  function Tokens(s: seq<Byte>): Norm
    decreases |s|
  {
    if s == [] then Norm([], false)
    else if s == [CR] then Norm([], true)
    else
      var width := if s[0] == CR && s[1] == LF then 2 else 1;
      var rest := Tokens(s[width..]);
      var token := if s[0] == CR || s[0] == LF then [CR, LF] else [s[0]];
      Norm(token + rest.out, rest.hadCr)
  }

  lemma TokensAfterCr(s: seq<Byte>)
    requires s != []
    ensures Tokens([CR] + s) == if s[0] == LF then Norm([CR, LF] + Tokens(s[1..]).out, Tokens(s[1..]).hadCr)
                                else Norm([CR, LF] + Tokens(s).out, Tokens(s).hadCr)
  {
    var t := [CR] + s;
    assert t[1..] == s && t[2..] == s[1..];
  }

  lemma TokensOfOther(b: Byte, rest: seq<Byte>)
    requires b != CR
    ensures var t := Tokens(rest);
            Tokens([b] + rest) == Norm((if b == LF then [CR, LF] else [b]) + t.out, t.hadCr)
  {
    var s := [b] + rest;
    assert s[0] == b && s[1..] == rest && s != [CR];
  }

  lemma NormalizeCons(b: Byte, rest: seq<Byte>, hadCr: bool)
    ensures var r := Normalize(rest, NormByte(b, hadCr).hadCr);
            Normalize([b] + rest, hadCr) == Norm(NormByte(b, hadCr).out + r.out, r.hadCr)
  {
  }

  lemma BreakLaws(b: Byte, out: seq<Byte>)
    ensures [] + out == out && Break(false) + [b] == [b]
    ensures (Break(true) + [b]) + out == [CR, LF] + ([b] + out)
  {
  }

  /** The one-bit filter computes the whole-stream meaning; a carried CR counts as the first
      byte of the stream. */
  lemma {:induction false} NormalizeIsTokens(s: seq<Byte>)
    ensures Normalize(s, false) == Tokens(s)
    ensures Normalize(s, true) == Tokens([CR] + s)
    decreases |s|
  {
    if s == [] {
      assert [CR] + s == [CR];
    } else {
      hide Normalize, Tokens;
      var b, rest := s[0], s[1..];
      assert s == [b] + rest;
      NormalizeIsTokens(rest);
      NormalizeCons(b, rest, false);
      NormalizeCons(b, rest, true);
      TokensAfterCr(s);
      if b != CR { TokensOfOther(b, rest); }
      BreakLaws(b, Normalize(rest, b == CR).out);
    }
  }

  /** The attach loop: one call per read, the bit carried between them. The chunking of the
      stream is invisible in what reaches the terminal. */
  method TranslateStream(chunks: seq<seq<Byte>>) returns (shown: seq<Byte>, hadCr: bool)
    ensures Norm(shown, hadCr) == Tokens(Flatten(chunks))
  {
    shown, hadCr := [], false;
    for k := 0 to |chunks|
      invariant Norm(shown, hadCr) == Normalize(Flatten(chunks[..k]), false)
    {
      assert chunks[..k + 1] == chunks[..k] + [chunks[k]];
      FlattenSnoc(chunks[..k], chunks[k]);
      NormalizeAppend(Flatten(chunks[..k]), chunks[k], false);
      var payload;
      payload, hadCr := NormalizeLineEndings(chunks[k], hadCr);
      shown := shown + payload;
    }
    assert chunks[..|chunks|] == chunks;
    NormalizeIsTokens(Flatten(chunks));
  }

  predicate IsBreak(b: Byte) { b == CR || b == LF }

  function Text(s: seq<Byte>): seq<Byte> {
    if s == [] then []
    else (if IsBreak(s[0]) then [] else [s[0]]) + Text(s[1..])
  }

  lemma {:induction false} TextAppend(a: seq<Byte>, b: seq<Byte>)
    ensures Text(a + b) == Text(a) + Text(b)
  {
    if a == [] {
      assert a + b == b;
    } else {
      assert (a + b)[1..] == a[1..] + b;
      TextAppend(a[1..], b);
    }
  }

  /** CR and LF occur only as the pair CR LF. */
  predicate Paired(s: seq<Byte>)
    decreases |s|
  {
    s == []
    || (!IsBreak(s[0]) && Paired(s[1..]))
    || (|s| >= 2 && s[0] == CR && s[1] == LF && Paired(s[2..]))
  }

  lemma {:induction false} PairedAppend(a: seq<Byte>, b: seq<Byte>)
    requires Paired(a) && Paired(b)
    ensures Paired(a + b)
    decreases |a|
  {
    if a == [] {
      assert a + b == b;
    } else if !IsBreak(a[0]) {
      assert (a + b)[1..] == a[1..] + b;
      PairedAppend(a[1..], b);
    } else {
      assert (a + b)[2..] == a[2..] + b;
      PairedAppend(a[2..], b);
    }
  }

  /** Line breaks come out only in pairs, every other byte survives in order, and the output
      is at most twice the input (a carried CR counting for two). */
  lemma {:induction false} NormalizeWellBehaved(s: seq<Byte>, hadCr: bool)
    ensures var r := Normalize(s, hadCr);
            Paired(r.out) && Text(r.out) == Text(s)
            && |r.out| + (if r.hadCr then 2 else 0) <= 2 * |s| + (if hadCr then 2 else 0)
    decreases |s|
  {
    if s != [] {
      hide Paired, NormByte;
      var first := NormByte(s[0], hadCr);
      var rest := Normalize(s[1..], first.hadCr);
      NormalizeWellBehaved(s[1..], first.hadCr);
      FirstPaired(s[0], hadCr);
      PairedAppend(first.out, rest.out);
      TextAppend(first.out, rest.out);
    }
  }

  lemma FirstPaired(b: Byte, hadCr: bool)
    ensures var first := NormByte(b, hadCr);
            Paired(first.out) && Text(first.out) == if IsBreak(b) then [] else [b]
  {
    var first := NormByte(b, hadCr);
    assert Paired([]) && Text([]) == [];
    assert [CR, LF][2..] == [] && [CR, LF][1..] == [LF] && [LF][1..] == [];
    assert Paired([CR, LF]) && Text([LF]) == [] && Text([CR, LF]) == [];
    assert [b][1..] == [];
    if !IsBreak(b) {
      assert Paired([b]) && Text([b]) == [b];
      PairedAppend(Break(hadCr), [b]);
      TextAppend(Break(hadCr), [b]);
    }
  }

  /** Text that is already normal passes through unchanged. */
  lemma {:induction false} NormalizeFixesPaired(s: seq<Byte>)
    requires Paired(s)
    ensures Normalize(s, false) == Norm(s, false)
    decreases |s|
  {
    if s != [] {
      if !IsBreak(s[0]) {
        NormalizeFixesPaired(s[1..]);
        assert Break(false) + [s[0]] == [s[0]];
        assert s == [s[0]] + s[1..];
      } else {
        NormalizeFixesPaired(s[2..]);
        assert s[1..][1..] == s[2..] && s == [CR, LF] + s[2..];
        assert Normalize(s[1..], true) == Norm([CR, LF] + s[2..], false);
        assert [] + ([CR, LF] + s[2..]) == s;
      }
    }
  }

  lemma NormalizeIdempotent(s: seq<Byte>, hadCr: bool)
    ensures var out := Normalize(s, hadCr).out; Normalize(out, false) == Norm(out, false)
  {
    NormalizeWellBehaved(s, hadCr);
    NormalizeFixesPaired(Normalize(s, hadCr).out);
  }

  predicate NoBreaks(a: seq<Byte>) { forall i :: 0 <= i < |a| ==> a[i] != 0x0D && a[i] != 0x0A }

  lemma {:induction false} PlainPasses(a: seq<Byte>)
    requires NoBreaks(a)
    ensures Normalize(a, false) == Norm(a, false)
  {
    if a != [] {
      PlainPasses(a[1..]);
      assert Break(false) + [a[0]] == [a[0]];
      assert a == [a[0]] + a[1..];
    }
  }

  /** What the filter shows, on the bytes: text passes; LF, CR LF and a CR that something else
      follows are each shown as 0D 0A; a CR at the end is held back. Every stream is made of these. */
  lemma LineEndings(a: seq<Byte>, b: seq<Byte>)
    requires NoBreaks(a)
    ensures Normalize(a, false) == Norm(a, false) && Normalize(a + [0x0D], false) == Norm(a, true)
    ensures var r := Normalize(b, false);
            var shown := Norm(a + [0x0D, 0x0A] + r.out, r.hadCr);
            Normalize(a + [0x0A] + b, false) == shown && Normalize(a + [0x0D, 0x0A] + b, false) == shown
            && (b != [] && b[0] != 0x0A ==> Normalize(a + [0x0D] + b, false) == shown)
  {
    hide Normalize;
    PlainPasses(a);
    SingleByte(0x0D, false);
    SingleByte(0x0A, false);
    SingleByte(0x0A, true);
    NormalizeAppend(a, [0x0D], false);
    NormalizeAppend(a, [0x0A], false);
    NormalizeAppend(a + [0x0A], b, false);
    NormalizeAppend(a + [0x0D], [0x0A], false);
    NormalizeAppend(a + [0x0D] + [0x0A], b, false);
    assert a + [0x0D] + [0x0A] == a + [0x0D, 0x0A];
    NormalizeAppend(a + [0x0D], b, false);
    if b != [] && b[0] != 0x0A { HeldBreak(b); }
  }

  lemma HeldBreak(b: seq<Byte>)
    requires b != [] && b[0] != 0x0A
    ensures Normalize(b, true) == Norm([0x0D, 0x0A] + Normalize(b, false).out, Normalize(b, false).hadCr)
  {
    hide Normalize;
    var rest := b[1..];
    assert b == [b[0]] + rest;
    NormalizeCons(b[0], rest, true);
    NormalizeCons(b[0], rest, false);
    BreakLaws(b[0], Normalize(rest, b[0] == CR).out);
  }

  // ------------------------------------------------------- Ctrl-A escape

  const CTRL_A: Byte := 0x01

  predicate IsQuit(b: Byte) { b == 0x71 || b == 0x51 }

  datatype Key = Key(out: seq<Byte>, armed: bool, exit: bool)

  method ProcessInputByte(b: Byte, armed: bool, out: seq<Byte>)
    returns (armed': bool, out': seq<Byte>, exit: bool)
    ensures var k := KeyByte(b, armed); out' == out + k.out && armed' == k.armed && exit == k.exit
  {
    armed', out', exit := armed, out, false;
    if armed {
      armed' := false;
      if b == CTRL_A {
        out' := out' + [CTRL_A];
      } else if IsQuit(b) {
        exit := true;
      } else {
        out' := out' + [CTRL_A];
        out' := out' + [b];
      }
    } else if b == CTRL_A {
      armed' := true;
    } else {
      out' := out' + [b];
    }
  }

  function KeyByte(b: Byte, armed: bool): Key {
    if armed then
      if b == CTRL_A then Key([CTRL_A], false, false)
      else if IsQuit(b) then Key([], false, true)
      else Key([CTRL_A, b], false, false)
    else if b == CTRL_A then Key([], true, false)
    else Key([b], false, false)
  }

  /** Everything typed so far; nothing is read after an exit. */
  function Typed(s: seq<Byte>, armed: bool): Key
    decreases |s|
  {
    if s == [] then Key([], armed, false)
    else
      var k := KeyByte(s[0], armed);
      if k.exit then k
      else
        var r := Typed(s[1..], k.armed);
        Key(k.out + r.out, r.armed, r.exit)
  }

  lemma {:induction false} TypedAppend(a: seq<Byte>, b: seq<Byte>, armed: bool)
    ensures var x := Typed(a, armed);
            var y := Typed(b, x.armed);
            Typed(a + b, armed) == if x.exit then x else Key(x.out + y.out, y.armed, y.exit)
    decreases |a|
  {
    if a == [] {
      assert a + b == b;
    } else {
      assert (a + b)[1..] == a[1..] + b;
      TypedAppend(a[1..], b, KeyByte(a[0], armed).armed);
    }
  }

  /** One read from the keyboard: bytes after the exit sequence are not looked at. */
  method ProcessChunk(chunk: seq<Byte>, armed: bool) returns (out: seq<Byte>, armed': bool, exit: bool)
    ensures Key(out, armed', exit) == Typed(chunk, armed)
  {
    out, armed', exit := [], armed, false;
    for i := 0 to |chunk|
      invariant !exit && Key(out, armed', exit) == Typed(chunk[..i], armed)
    {
      assert chunk[..i + 1] == chunk[..i] + [chunk[i]];
      TypedAppend(chunk[..i], [chunk[i]], armed);
      TypedOne(chunk[i], armed');
      armed', out, exit := ProcessInputByte(chunk[i], armed', out);
      if exit {
        assert chunk == chunk[..i + 1] + chunk[i + 1..];
        TypedAppend(chunk[..i + 1], chunk[i + 1..], armed);
        return;
      }
    }
    assert chunk[..|chunk|] == chunk;
  }

  lemma TypedOne(b: Byte, armed: bool)
    ensures Typed([b], armed) == KeyByte(b, armed)
  {
  }

  /** The attach loop, read by read: what is forwarded does not depend on how the typing was
      cut into reads. */
  method ForwardTyping(chunks: seq<seq<Byte>>) returns (sent: seq<Byte>, armed: bool, exit: bool)
    ensures Key(sent, armed, exit) == Typed(Flatten(chunks), false)
  {
    sent, armed, exit := [], false, false;
    for k := 0 to |chunks|
      invariant !exit && Key(sent, armed, exit) == Typed(Flatten(chunks[..k]), false)
    {
      assert chunks[..k + 1] == chunks[..k] + [chunks[k]];
      FlattenSnoc(chunks[..k], chunks[k]);
      TypedAppend(Flatten(chunks[..k]), chunks[k], false);
      var out;
      out, armed, exit := ProcessChunk(chunks[k], armed);
      sent := sent + out;
      if exit {
        FlattenSplit(chunks, k + 1);
        TypedAppend(Flatten(chunks[..k + 1]), Flatten(chunks[k + 1..]), false);
        return;
      }
    }
    assert chunks[..|chunks|] == chunks;
  }

  lemma {:induction false} FlattenSplit(chunks: seq<seq<Byte>>, k: nat)
    requires k <= |chunks|
    ensures Flatten(chunks) == Flatten(chunks[..k]) + Flatten(chunks[k..])
    decreases k
  {
    if k == 0 {
      assert chunks[k..] == chunks;
    } else {
      assert chunks[..k][1..] == chunks[1..][..k - 1] && chunks[1..][k - 1..] == chunks[k..];
      FlattenSplit(chunks[1..], k - 1);
    }
  }

  /** How a user types a text that contains Ctrl-A. */
  function Escaped(s: seq<Byte>): seq<Byte> {
    if s == [] then []
    else (if s[0] == CTRL_A then [CTRL_A, CTRL_A] else [s[0]]) + Escaped(s[1..])
  }

  /** Doubling every Ctrl-A gets any byte string through exactly, with no exit. */
  lemma {:induction false} EscapedArrives(s: seq<Byte>)
    ensures Typed(Escaped(s), false) == Key(s, false, false)
  {
    if s != [] {
      EscapedArrives(s[1..]);
      var t := if s[0] == CTRL_A then [CTRL_A, CTRL_A] else [s[0]];
      EscapedKey(s[0]);
      hide Typed;
      TypedAppend(t, Escaped(s[1..]), false);
      assert s == [s[0]] + s[1..];
    }
  }

  lemma EscapedKey(b: Byte)
    ensures Typed(if b == CTRL_A then [CTRL_A, CTRL_A] else [b], false) == Key([b], false, false)
  {
    hide Typed;
    TypedOne(b, false);
    if b == CTRL_A {
      assert [CTRL_A, CTRL_A] == [CTRL_A] + [CTRL_A];
      TypedAppend([CTRL_A], [CTRL_A], false);
      TypedOne(CTRL_A, true);
    }
  }

  /** Length of the run of Ctrl-A at the end of a string. */
  function TrailingRun(s: seq<Byte>): nat {
    if s == [] || s[|s| - 1] != 0x01 then 0 else 1 + TrailingRun(s[..|s| - 1])
  }

  /** The quit position: a q or Q after an odd run of Ctrl-A. */
  predicate QuitsAt(s: seq<Byte>, i: nat) {
    i < |s| && (s[i] == 0x71 || s[i] == 0x51) && TrailingRun(s[..i]) % 2 == 1
  }

  lemma TypedSnoc(s: seq<Byte>, b: Byte)
    ensures var x := Typed(s, false);
            var k := KeyByte(b, x.armed);
            Typed(s + [b], false) == if x.exit then x else Key(x.out + k.out, k.armed, k.exit)
  {
    TypedAppend(s, [b], false);
    TypedOne(b, Typed(s, false).armed);
  }

  /** Without an exit the machine is armed exactly after an odd run of Ctrl-A. */
  lemma {:induction false} ArmedIffOddRun(s: seq<Byte>)
    requires forall i: nat :: !QuitsAt(s, i)
    ensures !Typed(s, false).exit
    ensures Typed(s, false).armed <==> TrailingRun(s) % 2 == 1
    decreases |s|
  {
    if s != [] {
      var init, b := s[..|s| - 1], s[|s| - 1];
      assert s == init + [b];
      forall i: nat ensures !QuitsAt(init, i) {
        if i < |init| {
          assert init[..i] == s[..i];
          assert !QuitsAt(s, i);
        }
      }
      ArmedIffOddRun(init);
      TypedSnoc(init, b);
      assert !QuitsAt(s, |init|);
    }
  }

  /** The machine exits exactly when some q or Q follows an odd run of Ctrl-A, at the first
      such place, having sent what came before the escape pair. */
  lemma ExitExactly(s: seq<Byte>)
    ensures Typed(s, false).exit <==> exists i: nat :: QuitsAt(s, i)
    ensures forall i: nat :: QuitsAt(s, i) && (forall j: nat :: j < i ==> !QuitsAt(s, j)) ==>
              i > 0 && Typed(s, false).out == Typed(s[..i - 1], false).out
  {
    hide Typed, TrailingRun, IsQuit;
    if !exists i: nat :: QuitsAt(s, i) {
      ArmedIffOddRun(s);
    } else {
      forall i: nat | QuitsAt(s, i) && (forall j: nat :: j < i ==> !QuitsAt(s, j))
        ensures Typed(s, false).exit && i > 0 && Typed(s, false).out == Typed(s[..i - 1], false).out
      {
        FirstQuit(s, i);
      }
      var i := LeastQuit(s, 0);
      FirstQuit(s, i);
    }
  }

  lemma {:induction false} LeastQuit(s: seq<Byte>, from: nat) returns (i: nat)
    requires exists i: nat :: QuitsAt(s, i)
    requires forall j: nat :: j < from ==> !QuitsAt(s, j)
    ensures QuitsAt(s, i) && forall j: nat :: j < i ==> !QuitsAt(s, j)
    decreases if from < |s| then |s| - from else 0
  {
    var w: nat :| QuitsAt(s, w);
    if QuitsAt(s, from) {
      i := from;
    } else {
      i := LeastQuit(s, from + 1);
    }
  }

  lemma KeysAtQuit(b: Byte)
    ensures KeyByte(CTRL_A, false) == Key([], true, false)
    ensures IsQuit(b) ==> KeyByte(b, true) == Key([], false, true)
  {
  }

  lemma FirstQuit(s: seq<Byte>, i: nat)
    requires QuitsAt(s, i) && forall j: nat :: j < i ==> !QuitsAt(s, j)
    ensures Typed(s, false).exit && i > 0 && Typed(s, false).out == Typed(s[..i - 1], false).out
  {
    hide Typed, KeyByte;
    KeysAtQuit(s[i]);
    var before := s[..i];
    forall j: nat ensures !QuitsAt(before, j) {
      if j < i {
        assert before[..j] == s[..j];
        assert !QuitsAt(s, j);
      }
    }
    ArmedIffOddRun(before);
    var init := s[..i - 1];
    assert before == init + [CTRL_A] && before[..|before| - 1] == init;
    forall j: nat ensures !QuitsAt(init, j) {
      if j < i - 1 {
        assert init[..j] == s[..j];
        assert !QuitsAt(s, j);
      }
    }
    ArmedIffOddRun(init);
    TypedSnoc(init, CTRL_A);
    TypedSnoc(before, s[i]);
    assert s == (before + [s[i]]) + s[i + 1..];
    TypedAppend(before + [s[i]], s[i + 1..], false);
  }

  /** n times Ctrl-A. */
  function Held(n: nat): seq<Byte> { seq(n, _ => 0x01) }

  lemma {:induction false} RunTyped(n: nat)
    ensures Typed(Held(n), false) == Key(Held(n / 2), n % 2 == 1, false)
  {
    if n >= 2 {
      RunTyped(n - 2);
      assert Held(n) == Held(n - 2) + [0x01] + [0x01];
      TypedSnoc(Held(n - 2), 0x01);
      TypedSnoc(Held(n - 2) + [0x01], 0x01);
      assert Held(n / 2) == Held((n - 2) / 2) + [0x01];
    } else if n == 1 {
      assert Held(1) == [0x01];
      TypedOne(0x01, false);
    }
  }

  /** What typing sends, on the bytes. A run of n Ctrl-A (0x01) before another key b sends half as
      many, rounded up, and then b: nothing typed is lost. But after an odd run q (0x71) or
      Q (0x51) ends the session, the last Ctrl-A unsent. A run at the end of the typing sends
      half, rounded down, and an odd one holds the last back. Every string is made of these. */
  lemma RunThenKey(n: nat, b: Byte, rest: seq<Byte>)
    requires b != 0x01
    ensures Typed(seq(n, _ => 0x01), false) == Key(seq(n / 2, _ => 0x01), n % 2 == 1, false)
    ensures n % 2 == 1 && (b == 0x71 || b == 0x51) ==>
              Typed(seq(n, _ => 0x01) + [b] + rest, false) == Key(seq(n / 2, _ => 0x01), false, true)
    ensures !(n % 2 == 1 && (b == 0x71 || b == 0x51)) ==>
              var r := Typed(rest, false);
              Typed(seq(n, _ => 0x01) + [b] + rest, false) ==
              Key(seq((n + 1) / 2, _ => 0x01) + [b] + r.out, r.armed, r.exit)
  {
    hide Typed;
    RunTyped(n);
    assert Held(n) == seq(n, _ => 0x01) && Held(n / 2) == seq(n / 2, _ => 0x01);
    TypedSnoc(Held(n), b);
    TypedAppend(Held(n) + [b], rest, false);
    assert Held(n) + [b] == seq(n, _ => 0x01) + [b];
    if n % 2 == 1 {
      assert Held(n / 2) + [0x01, b] == seq((n + 1) / 2, _ => 0x01) + [b];
      assert Held(n / 2) + [] == Held(n / 2);
    } else {
      assert Held(n / 2) + [b] == seq((n + 1) / 2, _ => 0x01) + [b];
    }
  }

  /** The bytes other than Ctrl-A. */
  function Others(s: seq<Byte>): seq<Byte> {
    if s == [] then [] else Others(s[..|s| - 1]) + (if s[|s| - 1] != 0x01 then [s[|s| - 1]] else [])
  }

  lemma {:induction false} OthersAppend(a: seq<Byte>, b: seq<Byte>)
    ensures Others(a + b) == Others(a) + Others(b)
    decreases |b|
  {
    if b == [] {
      assert a + b == a;
    } else {
      assert (a + b)[..|a + b| - 1] == a + b[..|b| - 1];
      OthersAppend(a, b[..|b| - 1]);
    }
  }

  /** Unless the session ends, every other byte typed is sent, in order. */
  lemma {:induction false} OthersSurvive(s: seq<Byte>)
    requires forall i: nat :: !QuitsAt(s, i)
    ensures Others(Typed(s, false).out) == Others(s)
    decreases |s|
  {
    if s != [] {
      var init, b := s[..|s| - 1], s[|s| - 1];
      assert s == init + [b];
      forall i: nat ensures !QuitsAt(init, i) {
        if i < |init| {
          assert init[..i] == s[..i];
          assert !QuitsAt(s, i);
        }
      }
      hide Typed;
      OthersSurvive(init);
      ArmedIffOddRun(init);
      TypedSnoc(init, b);
      assert !QuitsAt(s, |init|);
      var k := KeyByte(b, Typed(init, false).armed);
      OthersAppend(Typed(init, false).out, k.out);
      OthersOfKey(b, Typed(init, false).armed);
    }
  }

  lemma OthersOfKey(b: Byte, armed: bool)
    ensures !KeyByte(b, armed).exit ==> Others(KeyByte(b, armed).out) == if b == 0x01 then [] else [b]
  {
    assert [0x01, b][..1] == [0x01] && [0x01][..0] == [] && [b][..0] == [];
    assert Others([0x01]) == [] && Others([]) == [];
  }
}
