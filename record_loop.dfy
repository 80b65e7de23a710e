/** The capture loop of the recorder thread's `run`: read into one reused
    buffer while recording, drop the first two reads that returned data
    (the start-up "click"), and emit the whole buffer for every later one. */
module RecordLoop {
  import opened Common

  /** One `recorder.read(buffer, 0, buffer.length)` as the device answered it. */
  datatype ReadResult =
    | Bytes(data: seq<byte>)  // returned |data| (possibly 0) and wrote data into buffer[0..|data|)
    | Failed(code: int)       // returned a negative error code and wrote nothing
    | Raises                  // an exception escaped from this iteration

  /** The value `read` returns, `bytesRead`. */
  function BytesRead(r: ReadResult): int
    requires !r.Raises?
  {
    match r
    case Bytes(d) => |d|
    case Failed(c) => c
  }

  /** What the OS promises of a read into a buffer of `bufferSize` bytes. */
  predicate DeviceRead(r: ReadResult, bufferSize: int) {
    match r
    case Bytes(d) => |d| <= bufferSize
    case Failed(c) => c < 0
    case Raises => true
  }

  predicate ReadsFit(results: seq<ReadResult>, bufferSize: int) {
    forall i :: 0 <= i < |results| ==> DeviceRead(results[i], bufferSize)
  }

  /** `bytesRead > 0`. */
  predicate Positive(r: ReadResult) {
    r.Bytes? && |r.data| > 0
  }

  datatype LoopExit = Normal | Faulted

  /** The buffer after a read that wrote `data`: the new bytes, then what
      was left from earlier reads. */
  function Overlay(buf: seq<byte>, data: seq<byte>): seq<byte>
    requires |data| <= |buf|
  {
    data + buf[|data|..]
  }

  function Zeros(n: nat): (z: seq<byte>)
    ensures |z| == n && forall i :: 0 <= i < n ==> z[i] == 0
  {
    seq(n, _ => 0)
  }

  /** The loop from buffer contents `buf` and counter `count` (a Java int):
      the chunks it emits and how it ends. The results are those of the reads performed
      while the recording flag was seen set; once they run out the flag was
      seen clear and the loop ends normally. */
  function Loop(results: seq<ReadResult>, buf: seq<byte>, count: int32): (r: (seq<seq<byte>>, LoopExit))
    requires ReadsFit(results, |buf|)
    ensures |r.0| <= |results|  // at most one chunk per read
    decreases |results|
  {
    if results == [] then ([], Normal)
    else
      match results[0]
      case Raises => ([], Faulted)
      case Failed(_) => Loop(results[1..], buf, count)
      case Bytes(d) =>
        if |d| == 0 then Loop(results[1..], buf, count)
        else
          var buf' := Overlay(buf, d);
          var count' := Wrap32(count + 1);
          var (rest, exit) := Loop(results[1..], buf', count');
          (if count' > 2 then [buf'] + rest else rest, exit)
  }

  /** The try block of `run`: allocating the buffer fails for a negative
      size; otherwise it starts zeroed with the counter at 0. */
  function Capture(bufferSize: int32, results: seq<ReadResult>): (r: (seq<seq<byte>>, LoopExit))
    requires bufferSize >= 0 ==> ReadsFit(results, bufferSize)
    ensures bufferSize < 0 ==> r == ([], Faulted)
    ensures |r.0| <= |results|
    ensures forall k :: 0 <= k < |r.0| ==> |r.0[k]| == bufferSize
  {
    if bufferSize < 0 then ([], Faulted)
    else
      ChunksAreWholeBuffer(results, Zeros(bufferSize), 0);
      Loop(results, Zeros(bufferSize), 0)
  }

  /** One iteration of `Loop`: a read that raises ends it, one with
      `bytesRead <= 0` leaves buffer and counter alone, and a positive one
      overlays the buffer, increments the counter and emits past 2. */
  lemma LoopStep(results: seq<ReadResult>, buf: seq<byte>, count: int32)
    requires results != [] && ReadsFit(results, |buf|)
    ensures ReadsFit(results[1..], |buf|)
    ensures results[0].Raises? ==> Loop(results, buf, count) == ([], Faulted)
    ensures !results[0].Raises? && !Positive(results[0]) ==>
              Loop(results, buf, count) == Loop(results[1..], buf, count)
    ensures Positive(results[0]) ==>
              var b, c := Overlay(buf, results[0].data), Wrap32(count + 1);
              var (rest, exit) := Loop(results[1..], b, c);
              Loop(results, buf, count) == (if c > 2 then [b] + rest else rest, exit)
  {
    forall i | 0 <= i < |results[1..]| ensures DeviceRead(results[1..][i], |buf|) {
      assert results[1..][i] == results[i + 1];
    }
  }

  /** The device side of `recorder.read(buffer, 0, buffer.length)`: the
      bytes read land at the front of the buffer; the rest is untouched. */
  method DeviceWrite(buffer: array<byte>, data: seq<byte>)
    requires |data| <= buffer.Length
    modifies buffer
    ensures buffer[..] == Overlay(old(buffer[..]), data)
  {
    forall j | 0 <= j < |data| {
      buffer[j] := data[j];
    }
  }

  /** The loop of `run`, over the sequence of results it performs. */
  method RunLoop(bufferSize: int32, results: seq<ReadResult>) returns (emitted: seq<seq<byte>>, exit: LoopExit)
    requires bufferSize >= 0 ==> ReadsFit(results, bufferSize)
    ensures (emitted, exit) == Capture(bufferSize, results)
  {
    if bufferSize < 0 {
      // new byte[bufferSize] throws NegativeArraySizeException inside the try
      return [], Faulted;
    }
    var buffer := new byte[bufferSize](_ => 0);
    var count: int32 := 0;
    emitted := [];
    assert buffer[..] == Zeros(bufferSize);
    ghost var total := Capture(bufferSize, results);
    var i := 0;
    while i < |results|
      invariant 0 <= i <= |results| && buffer.Length == bufferSize
      invariant ReadsFit(results[i..], bufferSize)
      invariant emitted + Loop(results[i..], buffer[..], count).0 == total.0
      invariant Loop(results[i..], buffer[..], count).1 == total.1
    {
      ghost var rest, before, counted := results[i..], buffer[..], count;
      assert rest[0] == results[i] && rest[1..] == results[i + 1..];
      LoopStep(rest, before, counted);
      if results[i].Raises? {
        assert emitted == total.0 && total.1 == Faulted;
        return emitted, Faulted;
      }
      var bytesRead := BytesRead(results[i]);
      if results[i].Bytes? {
        DeviceWrite(buffer, results[i].data);
      }
      if bytesRead > 0 {
        count := Wrap32(count + 1);
        if count > 2 {
          ghost var (restChunks, _) := Loop(results[i + 1..], buffer[..], count);
          assert (emitted + [buffer[..]]) + restChunks == emitted + ([buffer[..]] + restChunks);
          emitted := emitted + [buffer[..]];
        }
      } else {
        assert buffer[..] == before;
      }
      i := i + 1;
    }
    assert results[i..] == [];
    assert emitted == total.0;
    exit := Normal;
  }

  /** The data of every read that returned `bytesRead > 0`, in read order,
      up to the first exception. */
  function PositiveData(results: seq<ReadResult>): seq<seq<byte>>
    decreases |results|
  {
    if results == [] || results[0].Raises? then []
    else if Positive(results[0]) then [results[0].data] + PositiveData(results[1..])
    else PositiveData(results[1..])
  }

  /** The buffer contents right after each read that returned `bytesRead > 0`,
      starting from `buf`, up to the first exception. */
  function Snapshots(results: seq<ReadResult>, buf: seq<byte>): seq<seq<byte>>
    requires ReadsFit(results, |buf|)
    decreases |results|
  {
    if results == [] || results[0].Raises? then []
    else if Positive(results[0]) then
      var b := Overlay(buf, results[0].data);
      [b] + Snapshots(results[1..], b)
    else Snapshots(results[1..], buf)
  }

  /** Snapshot k has the buffer's length, starts with the data of the k-th
      positive read, and keeps beyond it the bytes of the snapshot before. */
  lemma {:induction false} SnapshotsShape(results: seq<ReadResult>, buf: seq<byte>)
    requires ReadsFit(results, |buf|)
    ensures |Snapshots(results, buf)| == |PositiveData(results)|
    ensures forall k :: 0 <= k < |Snapshots(results, buf)| ==>
              |Snapshots(results, buf)[k]| == |buf| && |PositiveData(results)[k]| <= |buf|
    ensures forall k :: 0 <= k < |Snapshots(results, buf)| ==>
              Snapshots(results, buf)[k][..|PositiveData(results)[k]|] == PositiveData(results)[k]
    ensures Snapshots(results, buf) != [] ==>
              Snapshots(results, buf)[0][|PositiveData(results)[0]|..] == buf[|PositiveData(results)[0]|..]
    ensures forall k :: 0 < k < |Snapshots(results, buf)| ==>
              Snapshots(results, buf)[k][|PositiveData(results)[k]|..] ==
              Snapshots(results, buf)[k - 1][|PositiveData(results)[k]|..]
  {
    if results == [] || results[0].Raises? {
    } else if Positive(results[0]) {
      var b := Overlay(buf, results[0].data);
      SnapshotsShape(results[1..], b);
    } else {
      SnapshotsShape(results[1..], buf);
    }
  }

  /** How many of `n` further positive reads a counter at `count` still
      drops: reads are dropped while `++count > 2` fails. */
  function Skip(count: int, n: nat): (k: nat)
    ensures k <= n
  {
    if count >= 2 then 0 else if n < 2 - count then n else 2 - count
  }

  /** One positive read in the warm-up argument: prepending its snapshot
      to the snapshots after it, and emitting it exactly when the counter
      passes 2, keeps the emitted part at the right offset. */
  lemma SkipStep(b: seq<byte>, snaps': seq<seq<byte>>, rest: seq<seq<byte>>, count: int)
    requires 0 <= count
    requires rest == snaps'[Skip(count + 1, |snaps'|)..]
    ensures (if count + 1 > 2 then [b] + rest else rest) == ([b] + snaps')[Skip(count, 1 + |snaps'|)..]
  {
    var snaps := [b] + snaps';
    assert snaps[1..] == snaps';
    if count < 2 {
      assert Skip(count, |snaps|) == 1 + Skip(count + 1, |snaps'|);
      assert snaps[1 + Skip(count + 1, |snaps'|)..] == snaps'[Skip(count + 1, |snaps'|)..];
    }
  }

  /** Warm-up discard, for any counter value that does not reach the Java
      int limit: the emitted chunks are the snapshots after the first
      2 - count positive reads. */
  lemma {:induction false} LoopDropsWarmUp(results: seq<ReadResult>, buf: seq<byte>, count: int32)
    requires ReadsFit(results, |buf|)
    requires 0 <= count && count + |PositiveData(results)| < 0x8000_0000
    ensures var snaps := Snapshots(results, buf);
            Loop(results, buf, count).0 == snaps[Skip(count, |snaps|)..]
  {
    if results == [] || results[0].Raises? {
    } else {
      var tail := results[1..];
      LoopStep(results, buf, count);
      if Positive(results[0]) {
        var b := Overlay(buf, results[0].data);
        var snaps' := Snapshots(tail, b);
        assert Snapshots(results, buf) == [b] + snaps';
        assert |PositiveData(results)| == 1 + |PositiveData(tail)|;
        assert Wrap32(count + 1) == count + 1;
        LoopDropsWarmUp(tail, b, count + 1);
        SkipStep(b, snaps', Loop(tail, b, count + 1).0, count);
      } else {
        assert Snapshots(results, buf) == Snapshots(tail, buf);
        assert PositiveData(results) == PositiveData(tail);
        LoopDropsWarmUp(tail, buf, count);
      }
    }
  }

  /** The first two positive reads of a run are never emitted; every later
      one is emitted once, in read order, as the whole buffer after it. */
  lemma WarmUpDiscard(bufferSize: int32, results: seq<ReadResult>)
    requires bufferSize >= 0 && ReadsFit(results, bufferSize)
    requires |PositiveData(results)| < 0x8000_0000
    ensures var snaps := Snapshots(results, Zeros(bufferSize));
            Capture(bufferSize, results).0 == if |snaps| <= 2 then [] else snaps[2..]
  {
    LoopDropsWarmUp(results, Zeros(bufferSize), 0);
  }

  /** What is emitted, read by read: one chunk per positive read after the
      second, each of `bufferSize` bytes, starting with that read's data. */
  lemma EmittedChunks(bufferSize: int32, results: seq<ReadResult>)
    requires bufferSize >= 0 && ReadsFit(results, bufferSize)
    requires |PositiveData(results)| < 0x8000_0000
    ensures var emitted, data := Capture(bufferSize, results).0, PositiveData(results);
            && |emitted| == (if |data| <= 2 then 0 else |data| - 2)
            && forall k :: 0 <= k < |emitted| ==>
                 |emitted[k]| == bufferSize && |data[k + 2]| <= bufferSize && emitted[k][..|data[k + 2]|] == data[k + 2]
  {
    WarmUpDiscard(bufferSize, results);
    SnapshotsShape(results, Zeros(bufferSize));
  }

  /** Every emitted chunk is the whole buffer, whatever the counter does. */
  lemma {:induction false} ChunksAreWholeBuffer(results: seq<ReadResult>, buf: seq<byte>, count: int32)
    requires ReadsFit(results, |buf|)
    ensures forall k :: 0 <= k < |Loop(results, buf, count).0| ==> |Loop(results, buf, count).0[k]| == |buf|
  {
    if results == [] || results[0].Raises? {
    } else if Positive(results[0]) {
      ChunksAreWholeBuffer(results[1..], Overlay(buf, results[0].data), Wrap32(count + 1));
    } else {
      ChunksAreWholeBuffer(results[1..], buf, count);
    }
  }

  /** The loop ends through the catch block exactly when some read raised. */
  lemma {:induction false} FaultedIffRaised(results: seq<ReadResult>, buf: seq<byte>, count: int32)
    requires ReadsFit(results, |buf|)
    ensures Loop(results, buf, count).1 == Faulted <==> exists i :: 0 <= i < |results| && results[i].Raises?
  {
    if results == [] {
    } else if results[0].Raises? {
    } else {
      var b, c := if Positive(results[0]) then Overlay(buf, results[0].data) else buf,
                  if Positive(results[0]) then Wrap32(count + 1) else count;
      FaultedIffRaised(results[1..], b, c);
      if exists i :: 0 <= i < |results| && results[i].Raises? {
        var i :| 0 <= i < |results| && results[i].Raises?;
        assert results[1..][i - 1].Raises?;
      }
      forall i | 0 <= i < |results[1..]| && results[1..][i].Raises? ensures results[i + 1].Raises? {
      }
    }
  }

  /** While the counter stays at or below 2 over all positive reads, nothing
      is emitted; for a negative counter this covers the climb back after a wrap. */
  lemma {:induction false} NoEmissionUpToTwo(results: seq<ReadResult>, buf: seq<byte>, count: int32)
    requires ReadsFit(results, |buf|)
    requires count + |PositiveData(results)| <= 2
    ensures Loop(results, buf, count).0 == []
  {
    if results == [] || results[0].Raises? {
    } else {
      var tail := results[1..];
      assert ReadsFit(tail, |buf|) by {
        forall i | 0 <= i < |tail| ensures DeviceRead(tail[i], |buf|) {
          assert tail[i] == results[i + 1];
        }
      }
      if Positive(results[0]) {
        var b := Overlay(buf, results[0].data);
        assert PositiveData(results) == [results[0].data] + PositiveData(tail);
        assert Wrap32(count + 1) == count + 1;
        NoEmissionUpToTwo(tail, b, count + 1);
      } else {
        assert PositiveData(results) == PositiveData(tail);
        NoEmissionUpToTwo(tail, buf, count);
      }
    }
  }

  /** From counter 2^31 - 1, the Java int `++count` wraps to -2^31, and the
      next 2^31 + 3 positive reads (the wrapping one included) emit nothing. */
  lemma {:induction false} CounterWrapPausesEmission(results: seq<ReadResult>, buf: seq<byte>)
    requires ReadsFit(results, |buf|)
    requires |PositiveData(results)| <= 0x8000_0003
    ensures Loop(results, buf, 0x7fff_ffff).0 == []
  {
    if results == [] || results[0].Raises? {
    } else {
      var tail := results[1..];
      assert ReadsFit(tail, |buf|) by {
        forall i | 0 <= i < |tail| ensures DeviceRead(tail[i], |buf|) {
          assert tail[i] == results[i + 1];
        }
      }
      if Positive(results[0]) {
        var b := Overlay(buf, results[0].data);
        assert PositiveData(results) == [results[0].data] + PositiveData(tail);
        assert Wrap32(0x7fff_ffff + 1) == -0x8000_0000;
        NoEmissionUpToTwo(tail, b, -0x8000_0000);
      } else {
        assert PositiveData(results) == PositiveData(tail);
        CounterWrapPausesEmission(tail, buf);
      }
    }
  }
}
