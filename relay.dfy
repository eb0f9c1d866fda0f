/**
 * The tee loop `copy_and_print` (src/main.rs): read a chunk of at most
 * 1024 bytes from the child's pipe, stop on an empty read, otherwise write
 * the chunk to the console, flush the console, write the chunk to the log
 * file, and repeat. The first error of any step ends the loop.
 *
 * The pipe is a queue of read events; the console and the log file are
 * sinks whose contents are byte sequences and whose failures follow a
 * schedule, one entry per operation.
 */
module Relay {
  import opened Wrappers

  newtype byte = x: int | 0 <= x < 256

  /** The size of the loop's buffer, the most one read can return. */
  const BufferSize: nat := 1024

  /**
   * What the pipe answers to a read: some bytes (none at end of stream)
   * or an error. A read into a buffer smaller than the bytes available
   * takes what fits and leaves the rest for the next read.
   */
  datatype ReadEvent = Bytes(data: seq<byte>) | ReadFailed

  /**
   * How a sink answers one operation: it accepts it, or it fails after
   * accepting the first `accepted` bytes of a write (a failing flush
   * changes nothing).
   */
  datatype Fault = Accept | Reject(accepted: nat)

  /** Which step of the loop failed. */
  datatype IoError = ReadError | ConsoleWriteError | ConsoleFlushError | LogWriteError

  /**
   * A console or log file: the bytes written to it, how many of them have
   * been flushed, and the outcomes of its next operations (past the end of
   * the schedule every operation is accepted).
   */
  datatype SinkState = SinkState(data: seq<byte>, flushed: nat, faults: seq<Fault>)
  {
    ghost predicate Valid() { flushed <= |data| }
  }

  /** One relay: the pipe still to be read, the bytes already read from it, and the two sinks. */
  datatype TeeState = TeeState(input: seq<ReadEvent>, delivered: seq<byte>, console: SinkState, log: SinkState)

  function NextFault(faults: seq<Fault>): Fault
  {
    if faults == [] then Accept else faults[0]
  }

  function LaterFaults(faults: seq<Fault>): seq<Fault>
  {
    if faults == [] then [] else faults[1..]
  }

  /** `write_all`: appends the bytes, or only a prefix of them before failing. */
  function WriteStep(s: SinkState, bytes: seq<byte>): (r: (SinkState, bool))
    ensures r.0.faults == LaterFaults(s.faults) && r.0.flushed == s.flushed
    ensures r.1 <==> NextFault(s.faults) == Accept
    ensures r.1 ==> r.0.data == s.data + bytes
    ensures s.data <= r.0.data && r.0.data[|s.data|..] <= bytes
  {
    match NextFault(s.faults)
    case Accept => (SinkState(s.data + bytes, s.flushed, LaterFaults(s.faults)), true)
    case Reject(k) =>
      var n := if k < |bytes| then k else |bytes|;
      (SinkState(s.data + bytes[..n], s.flushed, LaterFaults(s.faults)), false)
  }

  /** `flush`: on success everything written so far has been flushed. */
  function FlushStep(s: SinkState): (r: (SinkState, bool))
    requires s.Valid()
    ensures r.0.Valid() && r.0.data == s.data && r.0.faults == LaterFaults(s.faults)
    ensures r.1 <==> NextFault(s.faults) == Accept
    ensures r.0.flushed == if r.1 then |s.data| else s.flushed
  {
    match NextFault(s.faults)
    case Accept => (s.(flushed := |s.data|, faults := LaterFaults(s.faults)), true)
    case Reject(_) => (s.(faults := LaterFaults(s.faults)), false)
  }

  /** The size of a queue of events, which every non-empty read makes smaller. */
  function Weight(input: seq<ReadEvent>): nat
  {
    if input == [] then 0
    else (match input[0] case Bytes(d) => |d| + 1 case ReadFailed => 1) + Weight(input[1..])
  }

  /**
   * The bytes the stream carries before it ends: everything up to the
   * first empty read, the first error, or the end of the queue.
   */
  function Drained(input: seq<ReadEvent>): seq<byte>
  {
    if input == [] then []
    else match input[0]
      case ReadFailed => []
      case Bytes(d) => if d == [] then [] else d + Drained(input[1..])
  }

  /** The events that follow the one that ends the stream. */
  function AfterEnd(input: seq<ReadEvent>): seq<ReadEvent>
  {
    if input == [] then []
    else match input[0]
      case ReadFailed => input[1..]
      case Bytes(d) => if d == [] then input[1..] else AfterEnd(input[1..])
  }

  /** The stream ends with an empty read (or runs out), not with an error. */
  predicate EndsCleanly(input: seq<ReadEvent>)
  {
    if input == [] then true
    else match input[0]
      case ReadFailed => false
      case Bytes(d) => d == [] || EndsCleanly(input[1..])
  }

  /**
   * `reader.read(&mut buffer)` with a buffer of `capacity` bytes: the
   * chunk read, or the error, and the events left. A chunk never exceeds
   * the buffer; a non-empty chunk is the start of the stream's remaining
   * bytes and the rest of them stay in the pipe, and the stream's end is
   * where it was.
   */
  function ReadStep(input: seq<ReadEvent>, capacity: nat): (r: (Result<seq<byte>, IoError>, seq<ReadEvent>))
    ensures r.0.Success? ==> |r.0.value| <= capacity
    ensures r.0.Failure? <==> input != [] && input[0] == ReadFailed
    ensures r.0.Failure? ==> r.0.error == ReadError && r.1 == AfterEnd(input) && Drained(input) == []
    ensures r.0 == Success([]) && capacity > 0 ==>
              r.1 == AfterEnd(input) && Drained(input) == [] && EndsCleanly(input)
    ensures r.0.Success? && r.0.value != [] ==>
              Drained(input) == r.0.value + Drained(r.1) && AfterEnd(r.1) == AfterEnd(input)
              && (EndsCleanly(r.1) <==> EndsCleanly(input))
    ensures input != [] && capacity > 0 ==> Weight(r.1) < Weight(input)
  {
    if input == [] then (Success([]), [])
    else match input[0]
      case ReadFailed => (Failure(ReadError), input[1..])
      case Bytes(d) =>
        var n := if |d| < capacity then |d| else capacity;
        if n < |d| then
          var rest := [Bytes(d[n..])] + input[1..];
          assert rest[1..] == input[1..];
          assert d == d[..n] + d[n..];
          (Success(d[..n]), rest)
        else
          assert d[..n] == d;
          (Success(d[..n]), input[1..])
  }

  /** Every operation in the schedule is accepted. */
  predicate Healthy(faults: seq<Fault>)
  {
    forall i :: 0 <= i < |faults| ==> faults[i] == Accept
  }

  /**
   * One pass of the loop body: the state after it, and the loop's result
   * when this pass ends the loop (`None` when the loop goes on).
   *
   * An empty read ends the loop with `Ok(())` and a read error with that
   * error, neither touching a sink. Otherwise one chunk of at most
   * `BufferSize` bytes is taken from the front of the stream; the console
   * receives a prefix of it and the log a prefix of what the console
   * received, the log receiving anything only once the console holds the
   * whole chunk and is flushed. The loop goes on only when the chunk
   * reached both sinks whole, and a pass never fails on sinks that never
   * fail.
   */
  function Step(s: TeeState): (r: (TeeState, Option<Result<(), IoError>>))
    requires s.console.Valid()
    ensures r.0.console.Valid()
    ensures r.1 == Some(Success(())) ==>
              r.0 == s.(input := AfterEnd(s.input)) && Drained(s.input) == [] && EndsCleanly(s.input)
    ensures r.1 == Some(Failure(ReadError)) ==>
              r.0 == s.(input := AfterEnd(s.input)) && Drained(s.input) == [] && !EndsCleanly(s.input)
    ensures r.1.None? || (r.1.value.Failure? && r.1.value.error != ReadError) ==>
              && s.delivered <= r.0.delivered
              && var chunk := r.0.delivered[|s.delivered|..];
                 && 0 < |chunk| <= BufferSize
                 && Drained(s.input) == chunk + Drained(r.0.input)
                 && AfterEnd(r.0.input) == AfterEnd(s.input)
                 && (EndsCleanly(r.0.input) <==> EndsCleanly(s.input))
                 && Weight(r.0.input) < Weight(s.input)
                 && s.console.data <= r.0.console.data && s.log.data <= r.0.log.data
                 && r.0.console.data[|s.console.data|..] <= chunk
                 && r.0.log.data[|s.log.data|..] <= r.0.console.data[|s.console.data|..]
                 && s.console.flushed <= r.0.console.flushed
                 && (r.0.log.data != s.log.data ==> r.0.console.flushed == |s.console.data| + |chunk|)
                 && (r.1.None? ==> && r.0.console.data == s.console.data + chunk
                                   && r.0.log.data == s.log.data + chunk
                                   && r.0.console.flushed == |r.0.console.data|)
    ensures Healthy(s.console.faults) && Healthy(s.log.faults) ==>
              && (r.1.None? || r.1.value.Success? || r.1.value == Failure(ReadError))
              && Healthy(r.0.console.faults) && Healthy(r.0.log.faults)
  {
    var (read, rest) := ReadStep(s.input, BufferSize);
    match read
    case Failure(e) => (s.(input := rest), Some(Failure(e)))
    case Success(chunk) =>
      if chunk == [] then (s.(input := rest), Some(Success(())))
      else
        var s1 := s.(input := rest, delivered := s.delivered + chunk);
        assert s1.delivered[|s.delivered|..] == chunk;
        var (console1, written) := WriteStep(s.console, chunk);
        if !written then (s1.(console := console1), Some(Failure(ConsoleWriteError)))
        else
          var (console2, flushed) := FlushStep(console1);
          if !flushed then (s1.(console := console2), Some(Failure(ConsoleFlushError)))
          else
            var (log1, logged) := WriteStep(s.log, chunk);
            assert console2.data[|s.console.data|..] == chunk;
            if !logged then (s1.(console := console2, log := log1), Some(Failure(LogWriteError)))
            else (s1.(console := console2, log := log1), None)
  }

  /**
   * The whole loop, from state `s` until the stream ends or a pass
   * fails: the final state and `Ok(())` or the error. No more bytes are
   * ever marked flushed than were written to a sink.
   */
  function Tee(s: TeeState): (r: (TeeState, Result<(), IoError>))
    requires s.console.Valid()
    ensures r.0.console.Valid()
    ensures s.log.Valid() ==> r.0.log.Valid()
    decreases Weight(s.input)
  {
    var (next, done) := Step(s);
    match done
    case Some(result) => (next, result)
    case None => Tee(next)
  }

  lemma AppendAssociates(a: seq<byte>, b: seq<byte>, c: seq<byte>)
    ensures (a + b) + c == a + (b + c)
  {
  }

  lemma PrefixExtends(c: seq<byte>, a: seq<byte>, b: seq<byte>)
    requires a <= b
    ensures c + a <= c + b
  {
    assert (c + b)[..|c + a|] == c + a;
  }

  lemma SliceAfterAppend(a: seq<byte>, b: seq<byte>, t: seq<byte>)
    requires a + b <= t
    ensures a <= t && t[|a|..] == b + t[|a + b|..]
  {
    assert t[|a|..] == t[|a|..|a + b|] + t[|a + b|..];
  }

  /**
   * Unless a write or a flush fails, the loop reads the stream to its end
   * and no further, both the console and the log receive exactly the
   * stream's bytes, in order, and the console is left flushed; the loop
   * returns `Ok(())` exactly when the stream ended with an empty read.
   */
  lemma {:induction false} TeeCopiesStream(s: TeeState)
    requires s.console.Valid()
    ensures var (t, r) := Tee(s);
      r.Success? || r == Failure(ReadError) ==>
        && t.input == AfterEnd(s.input)
        && t.delivered == s.delivered + Drained(s.input)
        && t.console.data == s.console.data + Drained(s.input)
        && t.log.data == s.log.data + Drained(s.input)
        && (Drained(s.input) != [] ==> t.console.flushed == |t.console.data|)
        && (r.Success? <==> EndsCleanly(s.input))
    decreases Weight(s.input)
  {
    var (next, done) := Step(s);
    if done.None? {
      assert Tee(s) == Tee(next);
      TeeCopiesStream(next);
      var (t, r) := Tee(next);
      if r.Success? || r == Failure(ReadError) {
        var chunk := next.delivered[|s.delivered|..];
        var rest := Drained(next.input);
        assert Drained(s.input) == chunk + rest;
        assert next.delivered == s.delivered + chunk;
        AppendAssociates(s.delivered, chunk, rest);
        AppendAssociates(s.console.data, chunk, rest);
        AppendAssociates(s.log.data, chunk, rest);
        assert t.console.data == s.console.data + (chunk + rest);
        assert t.log.data == s.log.data + (chunk + rest);
      }
    }
  }

  /** With sinks that never fail, only a read error can end the loop early. */
  lemma {:induction false} TeeHealthySinks(s: TeeState)
    requires s.console.Valid()
    requires Healthy(s.console.faults) && Healthy(s.log.faults)
    ensures Tee(s).1.Success? || Tee(s).1 == Failure(ReadError)
    decreases Weight(s.input)
  {
    var (next, done) := Step(s);
    if done.None? {
      TeeHealthySinks(next);
    }
  }

  /**
   * With sinks that never fail, the loop succeeds exactly when the stream
   * ends with an empty read rather than an error, and then both sinks hold
   * the stream's bytes.
   */
  lemma TeeSucceedsIff(s: TeeState)
    requires s.console.Valid()
    requires Healthy(s.console.faults) && Healthy(s.log.faults)
    ensures Tee(s).1.Success? <==> EndsCleanly(s.input)
    ensures Tee(s).1.Success? ==>
              Tee(s).0.console.data == s.console.data + Drained(s.input)
              && Tee(s).0.log.data == s.log.data + Drained(s.input)
  {
    TeeHealthySinks(s);
    TeeCopiesStream(s);
  }

  /** Whatever the outcome, the loop only appends to what was read and written, and never unflushes. */
  lemma {:induction false} TeeOnlyAppends(s: TeeState)
    requires s.console.Valid()
    ensures var t := Tee(s).0;
      && s.delivered <= t.delivered && s.console.data <= t.console.data && s.log.data <= t.log.data
      && s.console.flushed <= t.console.flushed
    decreases Weight(s.input)
  {
    var (next, done) := Step(s);
    if done.None? {
      TeeOnlyAppends(next);
    }
  }

  /**
   * Whatever the outcome, what the loop read is a prefix of the stream,
   * what the console received is a prefix of what was read, and what the
   * log received is a prefix of what the console received.
   */
  lemma {:induction false} TeeSinksFollowStream(s: TeeState)
    requires s.console.Valid()
    ensures var t := Tee(s).0;
      && s.delivered <= t.delivered && s.console.data <= t.console.data && s.log.data <= t.log.data
      && t.delivered[|s.delivered|..] <= Drained(s.input)
      && t.console.data[|s.console.data|..] <= t.delivered[|s.delivered|..]
      && t.log.data[|s.log.data|..] <= t.console.data[|s.console.data|..]
    decreases Weight(s.input)
  {
    TeeOnlyAppends(s);
    var (next, done) := Step(s);
    if done.None? {
      assert Tee(s) == Tee(next);
      TeeSinksFollowStream(next);
      var t := Tee(next).0;
      var chunk := next.delivered[|s.delivered|..];
      assert next.delivered == s.delivered + chunk;
      SliceAfterAppend(s.delivered, chunk, t.delivered);
      SliceAfterAppend(s.console.data, chunk, t.console.data);
      SliceAfterAppend(s.log.data, chunk, t.log.data);
      var read, shown, logged := t.delivered[|next.delivered|..], t.console.data[|next.console.data|..], t.log.data[|next.log.data|..];
      PrefixExtends(chunk, read, Drained(next.input));
      PrefixExtends(chunk, shown, read);
      PrefixExtends(chunk, logged, shown);
    }
  }

  /**
   * Whatever the outcome, every byte in the log had been flushed to the
   * console before it was logged, and at most one chunk (`BufferSize`
   * bytes) was read and not fully logged.
   */
  lemma {:induction false} TeeLogTrailsConsole(s: TeeState)
    requires s.console.Valid()
    ensures var t := Tee(s).0;
      && s.delivered <= t.delivered && s.log.data <= t.log.data
      && var logged := t.log.data[|s.log.data|..];
         && (logged != [] ==> |s.console.data| + |logged| <= t.console.flushed)
         && |t.delivered| - |s.delivered| - |logged| <= BufferSize
    decreases Weight(s.input)
  {
    TeeOnlyAppends(s);
    var (next, done) := Step(s);
    if done.None? {
      TeeOnlyAppends(next);
      TeeLogTrailsConsole(next);
    }
  }

  /** `m` is `s` or a state that whole passes of the loop lead to from `s`. */
  ghost predicate Reaches(s: TeeState, m: TeeState)
    requires s.console.Valid()
    decreases Weight(s.input)
  {
    s == m || (Step(s).1.None? && Reaches(Step(s).0, m))
  }

  /**
   * `m` is where the loop's last pass began: the loop got there from `s`
   * by whole passes, each of which put its chunk whole into both sinks,
   * and the one pass from `m` ends the loop in state `t` with result `r`.
   */
  ghost predicate LastPassFrom(s: TeeState, m: TeeState, t: TeeState, r: Result<(), IoError>)
    requires s.console.Valid()
  {
    && m.console.Valid() && Reaches(s, m) && Step(m) == (t, Some(r))
    && s.delivered <= m.delivered
    && m.console.data == s.console.data + m.delivered[|s.delivered|..]
    && m.log.data == s.log.data + m.delivered[|s.delivered|..]
  }

  /**
   * When a write or a flush fails, every chunk read before the failing one
   * reached both sinks whole, and a single pass, the one that read the
   * failing chunk, separates that state from the end of the loop.
   */
  lemma WholeChunksCompose(d0: seq<byte>, d1: seq<byte>, d2: seq<byte>, c0: seq<byte>, c1: seq<byte>, c2: seq<byte>)
    requires d0 <= d1 && c1 == c0 + d1[|d0|..]
    requires d1 <= d2 && c2 == c1 + d2[|d1|..]
    ensures d0 <= d2 && c2 == c0 + d2[|d0|..]
  {
    assert d2[|d0|..] == d1[|d0|..] + d2[|d1|..];
  }

  /** A whole pass from `s` to `next` extends a last pass found from `next` to one from `s`. */
  lemma LastPassAfterWholePass(s: TeeState, m: TeeState, t: TeeState, r: Result<(), IoError>)
    requires s.console.Valid() && Step(s).1.None?
    requires LastPassFrom(Step(s).0, m, t, r)
    ensures LastPassFrom(s, m, t, r)
  {
    var next := Step(s).0;
    assert Reaches(s, m);
    WholeChunksCompose(s.delivered, next.delivered, m.delivered, s.console.data, next.console.data, m.console.data);
    WholeChunksCompose(s.delivered, next.delivered, m.delivered, s.log.data, next.log.data, m.log.data);
  }

  /**
   * When a write or a flush fails, every chunk read before the failing one
   * reached both sinks whole, and a single pass, the one that read the
   * failing chunk, separates that state from the end of the loop.
   */
  lemma {:induction false} TeeCompletesEarlierChunks(s: TeeState)
    requires s.console.Valid()
    ensures Tee(s).1.Failure? && Tee(s).1.error != ReadError ==>
              exists m :: LastPassFrom(s, m, Tee(s).0, Tee(s).1)
    decreases Weight(s.input)
  {
    var (next, done) := Step(s);
    if done.None? {
      TeeCompletesEarlierChunks(next);
      var (t, r) := Tee(next);
      if r.Failure? && r.error != ReadError {
        var m :| LastPassFrom(next, m, t, r);
        LastPassAfterWholePass(s, m, t, r);
      }
    } else if done.value.Failure? && done.value.error != ReadError {
      assert s.delivered[|s.delivered|..] == [];
      assert LastPassFrom(s, s, next, done.value);
    }
  }

  /**
   * When a write or a flush fails, the loop stops at once: the loop ends
   * in the pass that read the failing chunk, after passes that put every
   * earlier chunk whole into both sinks, so no later chunk is read and the
   * pipe still holds the rest of the stream after the bytes the loop read.
   * With `Step`'s contract, the failing chunk has at most `BufferSize`
   * bytes and each sink received only a prefix of it.
   */
  lemma {:induction false} TeeStopsAtFailedWrite(s: TeeState)
    requires s.console.Valid()
    ensures var (t, r) := Tee(s);
      r.Failure? && r.error != ReadError ==>
        && s.delivered <= t.delivered && Drained(s.input) == t.delivered[|s.delivered|..] + Drained(t.input)
        && exists m :: LastPassFrom(s, m, t, r)
    decreases Weight(s.input)
  {
    TeeCompletesEarlierChunks(s);
    var (next, done) := Step(s);
    if done.None? {
      TeeStopsAtFailedWrite(next);
      var (t, r) := Tee(next);
      if r.Failure? && r.error != ReadError {
        var chunk := next.delivered[|s.delivered|..];
        SliceAfterAppend(s.delivered, chunk, t.delivered);
        AppendAssociates(chunk, t.delivered[|next.delivered|..], Drained(t.input));
      }
    }
  }

  /** The read end of the child's pipe. */
  class Pipe {
    var events: seq<ReadEvent>
    /** Every byte handed out so far, in order. */
    ghost var delivered: seq<byte>

    constructor (events: seq<ReadEvent>)
      ensures this.events == events && delivered == []
    {
      this.events := events;
      delivered := [];
    }

    /**
     * `read(&mut buf)`: copies the next chunk into the front of `buf` and
     * returns its length, 0 at end of stream, or fails.
     */
    method Read(buf: array<byte>) returns (r: Result<nat, IoError>)
      modifies this, buf
      ensures var (read, rest) := ReadStep(old(events), buf.Length);
        && events == rest
        && match read
           case Failure(e) => r == Failure(e) && delivered == old(delivered)
           case Success(chunk) =>
             r == Success(|chunk|) && buf[..|chunk|] == chunk && delivered == old(delivered) + chunk
    {
      var (read, rest) := ReadStep(events, buf.Length);
      events := rest;
      match read {
        case Failure(e) =>
          r := Failure(e);
        case Success(chunk) =>
          forall i | 0 <= i < |chunk| {
            buf[i] := chunk[i];
          }
          delivered := delivered + chunk;
          r := Success(|chunk|);
      }
    }
  }

  /** The console (a standard stream of the shim) or a log file. */
  class Sink {
    var data: seq<byte>
    var flushed: nat
    var faults: seq<Fault>

    constructor (faults: seq<Fault>)
      ensures data == [] && flushed == 0 && this.faults == faults
    {
      data := [];
      flushed := 0;
      this.faults := faults;
    }

    function State(): SinkState
      reads this
    {
      SinkState(data, flushed, faults)
    }

    /** `write_all(&buf[..n])` */
    method WriteAll(buf: array<byte>, n: nat) returns (ok: bool)
      requires n <= buf.Length
      modifies this
      ensures (State(), ok) == WriteStep(old(State()), buf[..n])
    {
      match NextFault(faults) {
        case Accept =>
          data := data + buf[..n];
          ok := true;
        case Reject(k) =>
          var written := if k < n then k else n;
          assert buf[..n][..written] == buf[..written];
          data := data + buf[..written];
          ok := false;
      }
      faults := LaterFaults(faults);
    }

    /** `flush()` */
    method Flush() returns (ok: bool)
      requires State().Valid()
      modifies this
      ensures (State(), ok) == FlushStep(old(State()))
    {
      ok := NextFault(faults) == Accept;
      if ok {
        flushed := |data|;
      }
      faults := LaterFaults(faults);
    }
  }

  /** The relay's state, read off the pipe and the two sinks. */
  ghost function Snapshot(reader: Pipe, writer: Sink, log: Sink): TeeState
    reads reader, writer, log
  {
    TeeState(reader.events, reader.delivered, writer.State(), log.State())
  }

  /**
   * `copy_and_print(reader, writer, log_file)`: the loop over a 1024-byte
   * buffer, ending in exactly the state and with exactly the result that
   * `Tee` gives (so the properties proved of `Tee` hold of it).
   */
  method CopyAndPrint(reader: Pipe, writer: Sink, log: Sink) returns (r: Result<(), IoError>)
    requires writer != log
    requires writer.State().Valid()
    modifies reader, writer, log
    ensures (Snapshot(reader, writer, log), r) == Tee(old(Snapshot(reader, writer, log)))
  {
    var buffer := new byte[BufferSize];
    while true
      invariant writer.State().Valid()
      invariant Tee(Snapshot(reader, writer, log)) == Tee(old(Snapshot(reader, writer, log)))
      decreases Weight(reader.events)
    {
      ghost var before := Snapshot(reader, writer, log);
      var read := reader.Read(buffer);
      if read.Failure? {
        assert Step(before) == (Snapshot(reader, writer, log), Some(Failure(read.error)));
        return Failure(read.error);
      }
      var n := read.value;
      if n == 0 {
        assert reader.delivered == before.delivered;
        assert Step(before) == (Snapshot(reader, writer, log), Some(Success(())));
        break;
      }
      var ok := writer.WriteAll(buffer, n);
      if !ok {
        assert Step(before) == (Snapshot(reader, writer, log), Some(Failure(ConsoleWriteError)));
        return Failure(ConsoleWriteError);
      }
      ok := writer.Flush();
      if !ok {
        assert Step(before) == (Snapshot(reader, writer, log), Some(Failure(ConsoleFlushError)));
        return Failure(ConsoleFlushError);
      }
      ok := log.WriteAll(buffer, n);
      if !ok {
        assert Step(before) == (Snapshot(reader, writer, log), Some(Failure(LogWriteError)));
        return Failure(LogWriteError);
      }
      assert Step(before) == (Snapshot(reader, writer, log), None);
    }
    return Success(());
  }
}
