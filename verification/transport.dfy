/** The serial transport: chunks arrive from a reader thread and are re-cut to whatever
    size the caller asks for; outgoing chunks go to a writer thread that may write short. */
module Transport {
  import opened Proto

  function Flatten(chunks: seq<seq<Byte>>): seq<Byte> {
    if chunks == [] then [] else chunks[0] + Flatten(chunks[1..])
  }

  lemma {:induction false} FlattenSnoc(chunks: seq<seq<Byte>>, last: seq<Byte>)
    ensures Flatten(chunks + [last]) == Flatten(chunks) + last
  {
    if chunks == [] {
      assert chunks + [last] == [last];
    } else {
      assert (chunks + [last])[1..] == chunks[1..] + [last];
      FlattenSnoc(chunks[1..], last);
    }
  }

  class BlockingSerial {
    /** Chunks received and not yet looked at; the stream ends after the last one. */
    var rx: seq<seq<Byte>>
    var leftover: seq<Byte>
    /** Chunks handed to the writer thread. */
    var tx: seq<seq<Byte>>

    /** The reader thread never forwards an empty read. */
    ghost predicate Valid()
      reads this
    {
      forall i :: 0 <= i < |rx| ==> rx[i] != []
    }

    ghost function Remaining(): seq<Byte>
      reads this
    {
      leftover + Flatten(rx)
    }

    ghost function Written(): seq<Byte>
      reads this
    {
      Flatten(tx)
    }

    constructor (chunks: seq<seq<Byte>>)
      requires forall i :: 0 <= i < |chunks| ==> chunks[i] != []
      ensures Valid() && Remaining() == Flatten(chunks) && Written() == []
    {
      rx, leftover, tx := chunks, [], [];
    }

    /** One poll: never more than asked for, nothing lost or reordered, and an empty
        result only when nothing was asked for. None is the end-of-stream error. */
    method PollRead(capacity: nat) returns (r: Option<seq<Byte>>)
      requires Valid()
      modifies this`leftover, this`rx
      ensures Valid()
      ensures r.None? <==> old(Remaining()) == []
      ensures r.None? ==> Remaining() == []
      ensures r.Some? ==> r.value + Remaining() == old(Remaining()) && |r.value| <= capacity
      ensures r.Some? && capacity > 0 ==> r.value != []
    {
      if leftover != [] {
        var n := if |leftover| < capacity then |leftover| else capacity;
        r := Some(leftover[..n]);
        leftover := leftover[n..];
        return;
      }
      if rx == [] {
        return None;
      }
      var chunk := rx[0];
      rx := rx[1..];
      var n := if |chunk| < capacity then |chunk| else capacity;
      r := Some(chunk[..n]);
      if n < |chunk| {
        leftover := leftover + chunk[n..];
      }
    }

    /** Polls until `n` bytes have arrived; a stream that ends first is used up. */
    method ReadExact(n: nat) returns (r: Option<seq<Byte>>)
      requires Valid()
      modifies this`leftover, this`rx
      ensures Valid()
      ensures n <= |old(Remaining())| ==>
                r == Some(old(Remaining())[..n]) && Remaining() == old(Remaining())[n..]
      ensures n > |old(Remaining())| ==> r == None && Remaining() == []
    {
      var buf := [];
      while |buf| < n
        invariant Valid() && |buf| <= n
        invariant buf + Remaining() == old(Remaining())
      {
        var part := PollRead(n - |buf|);
        if part.None? {
          return None;
        }
        buf := buf + part.value;
      }
      r := Some(buf);
    }

    method WriteAll(bytes: seq<Byte>)
      modifies this`tx
      ensures Written() == old(Written()) + bytes
    {
      if bytes != [] {
        FlattenSnoc(tx, bytes);
        tx := tx + [bytes];
      }
    }
  }

  /** What becomes of one chunk: the part that reached the device and how many of the awaited
      write results it used up. A positive result is a (possibly short) write, zero or less an
      error that drops the rest of the chunk; when no more results are given writes complete. */
  datatype Fate = Fate(part: seq<Byte>, used: nat)

  function Send(chunk: seq<Byte>, results: seq<int>): (f: Fate)
    ensures f.part <= chunk && f.used <= |results|
    decreases |chunk|
  {
    if chunk == [] then Fate([], 0)
    else if results == [] then Fate(chunk, 0)
    else if results[0] <= 0 then Fate([], 1)
    else
      var n := if results[0] < |chunk| then results[0] else |chunk|;
      var f := Send(chunk[n..], results[1..]);
      Fate(chunk[..n] + f.part, 1 + f.used)
  }

  function SendAll(chunks: seq<seq<Byte>>, results: seq<int>): (parts: seq<seq<Byte>>)
    ensures |parts| == |chunks| && forall i :: 0 <= i < |parts| ==> parts[i] <= chunks[i]
  {
    if chunks == [] then []
    else
      var f := Send(chunks[0], results);
      [f.part] + SendAll(chunks[1..], results[f.used..])
  }

  /** How many results the chunks use up together. */
  function UsedBy(chunks: seq<seq<Byte>>, results: seq<int>): (n: nat)
    ensures n <= |results|
  {
    if chunks == [] then 0
    else
      var f := Send(chunks[0], results);
      f.used + UsedBy(chunks[1..], results[f.used..])
  }

  function Failures(results: seq<int>): nat {
    if results == [] then 0 else (if results[0] <= 0 then 1 else 0) + Failures(results[1..])
  }

  function Incomplete(parts: seq<seq<Byte>>, chunks: seq<seq<Byte>>): nat
    requires |parts| == |chunks|
  {
    if chunks == [] then 0
    else (if parts[0] == chunks[0] then 0 else 1) + Incomplete(parts[1..], chunks[1..])
  }

  /** A chunk is cut short exactly by a failed write of its own, and by one at most. */
  lemma {:induction false} ChunkWholeIff(chunk: seq<Byte>, results: seq<int>)
    ensures var f := Send(chunk, results);
            Failures(results[..f.used]) == if f.part == chunk then 0 else 1
    decreases |chunk|
  {
    if chunk != [] && results != [] {
      var f := Send(chunk, results);
      if results[0] <= 0 {
        assert results[..1][1..] == [];
      } else {
        var n := if results[0] < |chunk| then results[0] else |chunk|;
        var g := Send(chunk[n..], results[1..]);
        ChunkWholeIff(chunk[n..], results[1..]);
        assert results[..f.used][1..] == results[1..][..g.used];
        assert chunk == chunk[..n] + chunk[n..];
        assert f.part == chunk ==> g.part == f.part[n..] == chunk[n..];
      }
    }
  }

  lemma {:induction false} FailuresConcat(a: seq<int>, b: seq<int>)
    ensures Failures(a + b) == Failures(a) + Failures(b)
  {
    if a == [] {
      assert a + b == b;
    } else {
      assert (a + b)[1..] == a[1..] + b;
      FailuresConcat(a[1..], b);
    }
  }

  /** Over the whole run, exactly as many chunks are cut short as writes have failed. */
  lemma {:induction false} LossesAreFailures(chunks: seq<seq<Byte>>, results: seq<int>)
    ensures Incomplete(SendAll(chunks, results), chunks) == Failures(results[..UsedBy(chunks, results)])
  {
    if chunks != [] {
      var f := Send(chunks[0], results);
      var rest := results[f.used..];
      ChunkWholeIff(chunks[0], results);
      LossesAreFailures(chunks[1..], rest);
      var u := UsedBy(chunks[1..], rest);
      FailuresConcat(results[..f.used], rest[..u]);
      assert results[..f.used + u] == results[..f.used] + rest[..u];
      assert SendAll(chunks, results)[1..] == SendAll(chunks[1..], rest);
    }
  }

  lemma SendStep(chunk: seq<Byte>, results: seq<int>)
    requires chunk != [] && results != []
    ensures Send(chunk, results) ==
            if results[0] <= 0 then Fate([], 1)
            else
              var n := if results[0] < |chunk| then results[0] else |chunk|;
              var f := Send(chunk[n..], results[1..]);
              Fate(chunk[..n] + f.part, 1 + f.used)
  {
  }

  lemma SendAllStep(chunks: seq<seq<Byte>>, results: seq<int>)
    requires chunks != []
    ensures var f := Send(chunks[0], results);
            SendAll(chunks, results) == [f.part] + SendAll(chunks[1..], results[f.used..])
  {
  }

  /** The inner loop: one chunk. */
  method WriteChunk(chunk: seq<Byte>, results: seq<int>) returns (done: seq<Byte>, calls: nat)
    ensures Send(chunk, results) == Fate(done, calls)
  {
    var remaining := chunk;
    done, calls := [], 0;
    while remaining != []
      invariant calls <= |results|
      invariant var f := Send(remaining, results[calls..]);
                Send(chunk, results) == Fate(done + f.part, calls + f.used)
      decreases |remaining|
    {
      if calls == |results| {
        return done + remaining, calls;
      }
      SendStep(remaining, results[calls..]);
      assert results[calls..][1..] == results[calls + 1..];
      hide Send;
      var n := if results[calls] < |remaining| then results[calls] else |remaining|;
      calls := calls + 1;
      if n <= 0 {
        return;
      }
      done, remaining := done + remaining[..n], remaining[n..];
    }
  }

  /** The writer thread. `results` is what successive write calls return. */
  method WriterLoop(chunks: seq<seq<Byte>>, results: seq<int>)
    returns (device: seq<Byte>, parts: seq<seq<Byte>>)
    ensures device == Flatten(parts) && parts == SendAll(chunks, results)
  {
    hide Send, SendAll, Flatten;
    device, parts := [], [];
    var rest := results;
    assert chunks[0..] == chunks && device == Flatten(parts) by { NothingSent(results); }
    for k := 0 to |chunks|
      invariant device == Flatten(parts)
      invariant parts + SendAll(chunks[k..], rest) == SendAll(chunks, results)
    {
      var done, used := WriteChunk(chunks[k], rest);
      SendAllStep(chunks[k..], rest);
      assert chunks[k..][1..] == chunks[k + 1..];
      FlattenSnoc(parts, done);
      PartsAssoc(parts, [done], SendAll(chunks[k + 1..], rest[used..]));
      device, parts, rest := device + done, parts + [done], rest[used..];
    }
    NothingSent(rest);
    assert chunks[|chunks|..] == [];
  }

  lemma PartsAssoc(a: seq<seq<Byte>>, b: seq<seq<Byte>>, c: seq<seq<Byte>>)
    ensures (a + b) + c == a + (b + c)
  {
  }

  lemma NothingSent(results: seq<int>)
    ensures Flatten([]) == [] && SendAll([], results) == []
  {
  }
}
