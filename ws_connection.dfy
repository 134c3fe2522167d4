/**
 * One WebSocket connection of the connection service, `wsConnection`
 * (services/connection-service/websocket/connection.go).
 *
 * The gorilla socket is an abstract transport: every call made on it is appended
 * to `socketCalls`, and what it answers (a read frame, a write or close error) is
 * an input. The `done` channel is a `DoneSignal` object that is closed at most once.
 * The writer and reader goroutines become methods that run over a finite schedule:
 * for the writer, which `select` case fires at each turn; for the reader, the
 * results the socket returns. Deadlines, the ticker's period and the pong handler
 * are timing concerns and are not modelled.
 */
module ServiceConnection {
  import opened Wrappers
  import opened Utf8

  /** Frame types of the WebSocket protocol (section 11.8 of RFC 6455), as gorilla/websocket numbers them. */
  const TextMessage: int := 1
  const BinaryMessage: int := 2
  const PingMessage: int := 9

  /** `time.Second` in nanoseconds, and go-units' decimal `KB`. */
  const Second: int := 1_000_000_000
  const KB: int := 1000

  /** Both queues hold this many messages, whatever the configuration says. */
  const QueueCapacity: nat := 256

  /** `WsMessage{Type, Data}`: one frame queued on or read from a connection. */
  datatype WsMessage = WsMessage(msgType: int, data: seq<byte>)

  /** `WsConfig`: the two durations in nanoseconds, and the read limit in bytes. */
  datatype WsConfig = WsConfig(timeout: int, pingInterval: int, readLimit: int)

  /** `defaultWsConfig`: a 10 s timeout, a ping every second, frames of at most 64 KB. */
  const DefaultWsConfig: WsConfig := WsConfig(10 * Second, 1 * Second, 64 * KB)

  /** An error reported by the transport. */
  datatype SocketError = SocketError(msg: string)

  /** A call made on the transport. */
  datatype SocketCall =
    | SetReadLimit(limit: int)
    | WriteFrame(msgType: int, data: seq<byte>)
    | CloseSocket

  /** How many times the transport has been closed in `calls`. */
  function CloseCount(calls: seq<SocketCall>): nat
  {
    if calls == [] then 0
    else CloseCount(calls[..|calls| - 1]) + (if calls[|calls| - 1] == CloseSocket then 1 else 0)
  }

  lemma CloseCountAppend(calls: seq<SocketCall>, more: seq<SocketCall>)
    ensures CloseCount(calls + more) == CloseCount(calls) + CloseCount(more)
    decreases |more|
  {
    if more == [] {
      assert calls + more == calls;
    } else {
      var init := more[..|more| - 1];
      assert (calls + more)[..|calls + more| - 1] == calls + init;
      assert (calls + more)[|calls + more| - 1] == more[|more| - 1];
      CloseCountAppend(calls, init);
    }
  }

  // ---------------------------------------------------------------------------
  // The writer loop

  /** Which case of the writer's `select` fires at one turn. */
  datatype WriterChoice =
    | DoneCase
    | TickCase(result: Option<SocketError>)
    | QueueCase(result: Option<SocketError>)

  /** What the writer loop can see and change: `done`, the write queue, the transport log, and whether it has returned. */
  datatype WriterState = WriterState(closed: bool, queue: seq<WsMessage>, calls: seq<SocketCall>, stopped: bool)

  /** `write(msgType, msgData)`: one frame on the transport; a failure closes the connection (once). */
  function WriteEffect(st: WriterState, msgType: int, data: seq<byte>, result: Option<SocketError>): WriterState
  {
    var calls := st.calls + [WriteFrame(msgType, data)];
    if result.None? then st.(calls := calls)
    else st.(closed := true, calls := calls + (if st.closed then [] else [CloseSocket]), stopped := true)
  }

  /**
   * One turn of `runWriter`. `done` ends the loop; a tick writes an empty ping; a
   * queued message is written with its own type and data; a failed write ends the
   * loop. A case whose channel is not ready cannot fire, and is skipped.
   */
  function WriterStep(st: WriterState, choice: WriterChoice): WriterState
  {
    match choice
    case DoneCase => if st.closed then st.(stopped := true) else st
    case TickCase(r) => WriteEffect(st, PingMessage, [], r)
    case QueueCase(r) =>
      if st.queue == [] then st
      else WriteEffect(st.(queue := st.queue[1..]), st.queue[0].msgType, st.queue[0].data, r)
  }

  /** `runWriter` over a schedule of turns, up to its return. */
  function WriterRun(st: WriterState, schedule: seq<WriterChoice>): WriterState
    decreases |schedule|
  {
    if st.stopped || schedule == [] then st else WriterRun(WriterStep(st, schedule[0]), schedule[1..])
  }

  lemma WriteKeepsCloseLog(st: WriterState, msgType: int, data: seq<byte>, result: Option<SocketError>)
    requires CloseCount(st.calls) == if st.closed then 1 else 0
    ensures var r := WriteEffect(st, msgType, data, result);
      CloseCount(r.calls) == (if r.closed then 1 else 0) && (st.closed ==> r.closed)
  {
    var frame := [WriteFrame(msgType, data)];
    CloseCountAppend(st.calls, frame);
    CloseCountAppend(st.calls + frame, if st.closed then [] else [CloseSocket]);
    assert frame[..0] == [] && [CloseSocket][..0] == [];
  }

  /** The transport gains only frames and at most one close, which is logged iff `done` gets closed. */
  lemma {:induction false} WriterKeepsCloseLog(st: WriterState, schedule: seq<WriterChoice>)
    requires CloseCount(st.calls) == if st.closed then 1 else 0
    ensures var r := WriterRun(st, schedule);
      CloseCount(r.calls) == (if r.closed then 1 else 0) && (st.closed ==> r.closed)
    decreases |schedule|
  {
    if !st.stopped && schedule != [] {
      var next := WriterStep(st, schedule[0]);
      match schedule[0] {
        case DoneCase =>
        case TickCase(r) =>
          WriteKeepsCloseLog(st, PingMessage, [], r);
        case QueueCase(r) =>
          if st.queue != [] {
            WriteKeepsCloseLog(st.(queue := st.queue[1..]), st.queue[0].msgType, st.queue[0].data, r);
          }
      }
      WriterKeepsCloseLog(next, schedule[1..]);
    }
  }

  /** `later` is what is left of `earlier` once some messages are taken from its front. */
  predicate QueueSuffix(later: seq<WsMessage>, earlier: seq<WsMessage>)
  {
    |later| <= |earlier| && later == earlier[|earlier| - |later|..]
  }

  /** One turn takes at most the front message of the queue, and returns only with `done` closed. */
  lemma WriterStepDrainsFront(st: WriterState, choice: WriterChoice)
    requires !st.stopped
    ensures var r := WriterStep(st, choice);
      && (r.queue == st.queue || (st.queue != [] && r.queue == st.queue[1..]))
      && QueueSuffix(r.queue, st.queue)
      && (r.stopped ==> r.closed)
      && (!r.stopped ==> r.closed == st.closed)
  {
    assert st.queue[|st.queue| - |st.queue|..] == st.queue;
  }

  /** The writer takes messages from the front of the queue only. */
  lemma {:induction false} WriterDrainsFront(st: WriterState, schedule: seq<WriterChoice>)
    ensures QueueSuffix(WriterRun(st, schedule).queue, st.queue)
    decreases |schedule|
  {
    if !st.stopped && schedule != [] {
      var next := WriterStep(st, schedule[0]);
      WriterStepDrainsFront(st, schedule[0]);
      WriterDrainsFront(next, schedule[1..]);
      assert WriterRun(next, schedule[1..]) == WriterRun(st, schedule);
      SuffixOfSuffix(st.queue, next.queue, WriterRun(st, schedule).queue);
    } else {
      assert st.queue[|st.queue| - |st.queue|..] == st.queue;
    }
  }

  /**
   * The writer returns only once `done` is closed, because it was observed or
   * because a failed write closed it; until it returns, `done` is as it was.
   */
  lemma {:induction false} WriterStopsOnDone(st: WriterState, schedule: seq<WriterChoice>)
    ensures var r := WriterRun(st, schedule);
      && (r.stopped && !st.stopped ==> r.closed)
      && (!r.stopped ==> r.closed == st.closed)
      && (st.stopped ==> r == st)
    decreases |schedule|
  {
    if !st.stopped && schedule != [] {
      var next := WriterStep(st, schedule[0]);
      WriterStepDrainsFront(st, schedule[0]);
      WriterStopsOnDone(next, schedule[1..]);
      assert WriterRun(next, schedule[1..]) == WriterRun(st, schedule);
    }
  }

  /** A suffix of a suffix of `q` is a suffix of `q`. */
  lemma SuffixOfSuffix(q: seq<WsMessage>, mid: seq<WsMessage>, last: seq<WsMessage>)
    requires QueueSuffix(mid, q) && QueueSuffix(last, mid)
    ensures QueueSuffix(last, q)
  {
    assert q[|q| - |mid|..][|mid| - |last|..] == q[|q| - |last|..];
  }

  /** A call the writer may make while `queue` is waiting: an empty ping, a queued message, or the close. */
  ghost predicate WriterCall(call: SocketCall, queue: seq<WsMessage>)
  {
    || call == WriteFrame(PingMessage, [])
    || call == CloseSocket
    || exists m :: m in queue && call == WriteFrame(m.msgType, m.data)
  }

  lemma WriterStepWrites(st: WriterState, choice: WriterChoice)
    requires !st.stopped
    ensures var r := WriterStep(st, choice);
      && |st.calls| <= |r.calls| && r.calls[..|st.calls|] == st.calls
      && (forall k :: |st.calls| <= k < |r.calls| ==> WriterCall(r.calls[k], st.queue))
      && (forall m :: m in r.queue ==> m in st.queue)
  {
    var r := WriterStep(st, choice);
    if choice.QueueCase? && st.queue != [] {
      assert st.queue[0] in st.queue;
    }
  }

  /**
   * Every frame the writer puts on the transport is either an empty ping or a
   * message that was waiting in the queue, with its own type and data; the
   * transport gains nothing but such frames and, after a failed write, one close.
   */
  lemma {:induction false} WriterWritesPingsAndQueued(st: WriterState, schedule: seq<WriterChoice>)
    ensures var r := WriterRun(st, schedule);
      && |st.calls| <= |r.calls| && r.calls[..|st.calls|] == st.calls
      && forall k :: |st.calls| <= k < |r.calls| ==> WriterCall(r.calls[k], st.queue)
    decreases |schedule|
  {
    if !st.stopped && schedule != [] {
      var next := WriterStep(st, schedule[0]);
      WriterStepWrites(st, schedule[0]);
      WriterWritesPingsAndQueued(next, schedule[1..]);
      var r := WriterRun(next, schedule[1..]);
      assert r == WriterRun(st, schedule);
      forall k | |st.calls| <= k < |r.calls|
        ensures WriterCall(r.calls[k], st.queue)
      {
        if k < |next.calls| {
          assert r.calls[k] == next.calls[k];
        } else {
          assert WriterCall(r.calls[k], next.queue);
        }
      }
    }
  }

  // ---------------------------------------------------------------------------
  // The reader loop

  /** What one `ReadMessage` call returns. */
  datatype ReadResult = Frame(msgType: int, data: seq<byte>) | ReadFailed(error: SocketError)

  /** The frames `runReader` forwards from `results`: all of them up to the first failure. */
  function ForwardedFrames(results: seq<ReadResult>): seq<WsMessage>
  {
    if results == [] then []
    else match results[0]
      case ReadFailed(_) => []
      case Frame(t, d) => [WsMessage(t, d)] + ForwardedFrames(results[1..])
  }

  /** The read at `i` either fails, and no more frames are forwarded, or forwards its frame before the rest. */
  lemma ForwardedAt(results: seq<ReadResult>, i: nat)
    requires i < |results|
    ensures results[i].ReadFailed? ==> ForwardedFrames(results[i..]) == [] && SomeReadFails(results)
    ensures results[i].Frame? ==>
      ForwardedFrames(results[i..]) == [WsMessage(results[i].msgType, results[i].data)] + ForwardedFrames(results[i + 1..])
  {
    assert results[i..][0] == results[i] && results[i..][1..] == results[i + 1..];
  }

  /** Whether some read in `results` fails. */
  predicate SomeReadFails(results: seq<ReadResult>)
  {
    exists k :: 0 <= k < |results| && results[k].ReadFailed?
  }

  /** The forwarded frames are the reads themselves, in read order, and stop exactly at the first failure. */
  lemma {:induction false} ForwardedFramesInOrder(results: seq<ReadResult>)
    ensures var f := ForwardedFrames(results);
      && |f| <= |results|
      && (forall k :: 0 <= k < |f| ==> results[k].Frame? && f[k] == WsMessage(results[k].msgType, results[k].data))
      && (|f| < |results| <==> SomeReadFails(results))
      && (|f| < |results| ==> results[|f|].ReadFailed?)
  {
    if results != [] && results[0].Frame? {
      ForwardedFramesInOrder(results[1..]);
      var f := ForwardedFrames(results);
      assert SomeReadFails(results[1..]) ==> SomeReadFails(results) by {
        if SomeReadFails(results[1..]) {
          var k :| 0 <= k < |results[1..]| && results[1..][k].ReadFailed?;
          assert results[k + 1].ReadFailed?;
        }
      }
      assert SomeReadFails(results) ==> SomeReadFails(results[1..]) by {
        if SomeReadFails(results) {
          var k :| 0 <= k < |results| && results[k].ReadFailed?;
          assert k != 0 && results[1..][k - 1].ReadFailed?;
        }
      }
    } else if results != [] {
      assert results[0].ReadFailed?;
    }
  }

  // ---------------------------------------------------------------------------
  // The connection

  /** The `done` channel: once closed it stays closed. */
  class DoneSignal {
    var closed: bool

    constructor ()
      ensures !closed
    {
      closed := false;
    }
  }

  class WsConnection {
    const done: DoneSignal
    const config: WsConfig
    const writeCapacity: nat
    const readCapacity: nat
    /** The messages waiting in `writePump`, oldest first. */
    var writePump: seq<WsMessage>
    /** The messages the reader has pushed to `readPump`, oldest first. */
    var readPump: seq<WsMessage>
    /** Every call made on the transport so far. */
    var socketCalls: seq<SocketCall>

    /** The transport has been closed exactly once if `done` is closed, and never otherwise. */
    ghost predicate Valid()
      reads this, done
    {
      CloseCount(socketCalls) == if done.closed then 1 else 0
    }

    function Writer(stopped: bool): WriterState
      reads this, done
    {
      WriterState(done.closed, writePump, socketCalls, stopped)
    }

    /**
     * `NewWsConnection(conn, config)` with its `setUp`: both queues get capacity 256,
     * the read limit of `config` is set on the transport, and `done` is open.
     */
    constructor (config: WsConfig)
      ensures Valid() && fresh(done) && !done.closed
      ensures this.config == config && writeCapacity == QueueCapacity && readCapacity == QueueCapacity
      ensures writePump == [] && readPump == [] && socketCalls == [SetReadLimit(config.readLimit)]
    {
      done := new DoneSignal();
      this.config := config;
      writeCapacity, readCapacity := QueueCapacity, QueueCapacity;
      writePump, readPump := [], [];
      socketCalls := [SetReadLimit(config.readLimit)];
      new;
      assert socketCalls[..0] == [];
    }

    /** `Done()`: the same signal on every call. */
    method Done() returns (ch: DoneSignal)
      ensures ch == done
    {
      ch := done;
    }

    /**
     * `Close()`: the first call closes `done` and then the transport, returning the
     * transport's answer `closeResult`; every later call returns nil and touches
     * nothing.
     */
    method Close(closeResult: Option<SocketError>) returns (err: Option<SocketError>)
      requires Valid()
      modifies this, done
      ensures Valid() && done.closed
      ensures old(done.closed) ==> err == None && socketCalls == old(socketCalls)
      ensures !old(done.closed) ==> err == closeResult && socketCalls == old(socketCalls) + [CloseSocket]
      ensures writePump == old(writePump) && readPump == old(readPump)
    {
      if done.closed {
        return None;
      }
      done.closed := true;
      CloseCountAppend(socketCalls, [CloseSocket]);
      socketCalls := socketCalls + [CloseSocket];
      assert [CloseSocket][..0] == [];
      return closeResult;
    }

    /**
     * `write(msgType, msgData)`: the frame goes to the transport, which answers
     * `result`; on a failure the connection is closed (the close's own error is
     * dropped) and the failure is returned.
     */
    method Write(msgType: int, data: seq<byte>, result: Option<SocketError>) returns (err: Option<SocketError>)
      requires Valid()
      modifies this, done
      ensures Valid() && err == result
      ensures Writer(result.Some?) == WriteEffect(old(Writer(false)), msgType, data, result)
      ensures readPump == old(readPump)
    {
      CloseCountAppend(socketCalls, [WriteFrame(msgType, data)]);
      socketCalls := socketCalls + [WriteFrame(msgType, data)];
      assert [WriteFrame(msgType, data)][..0] == [];
      if result.Some? {
        var _ := Close(None);
      }
      return result;
    }

    /** One turn of `runWriter()`: the new state, and whether the loop returns, are those of `WriterStep`. */
    method WriterTurn(choice: WriterChoice) returns (stopped: bool)
      requires Valid()
      modifies this, done
      ensures Valid()
      ensures Writer(stopped) == WriterStep(old(Writer(false)), choice)
      ensures readPump == old(readPump)
    {
      match choice {
        case DoneCase =>
          stopped := done.closed;
        case TickCase(r) =>
          var err := Write(PingMessage, [], r);
          stopped := err.Some?;
        case QueueCase(r) =>
          stopped := false;
          if writePump != [] {
            var msg := writePump[0];
            writePump := writePump[1..];
            var err := Write(msg.msgType, msg.data, r);
            stopped := err.Some?;
          }
      }
    }

    /**
     * `runWriter()` over `schedule`: the final state, and whether the loop returned,
     * are those of `WriterRun`.
     */
    method RunWriter(schedule: seq<WriterChoice>) returns (stopped: bool)
      requires Valid()
      modifies this, done
      ensures Valid()
      ensures Writer(stopped) == WriterRun(old(Writer(false)), schedule)
      ensures readPump == old(readPump)
    {
      var i := 0;
      while i < |schedule|
        invariant 0 <= i <= |schedule|
        invariant Valid() && readPump == old(readPump)
        invariant WriterRun(old(Writer(false)), schedule) == WriterRun(Writer(false), schedule[i..])
      {
        assert schedule[i..][0] == schedule[i] && schedule[i..][1..] == schedule[i + 1..];
        stopped := WriterTurn(schedule[i]);
        if stopped {
          return;
        }
        i := i + 1;
      }
      return false;
    }

    /**
     * The `default` case of one `runReader()` turn: a frame is pushed to `readPump`;
     * a failed read closes the connection and ends the loop.
     */
    method ReaderTurn(result: ReadResult) returns (stopped: bool)
      requires Valid() && !done.closed
      modifies this, done
      ensures Valid() && writePump == old(writePump)
      ensures stopped <==> result.ReadFailed?
      ensures result.ReadFailed? ==>
        done.closed && readPump == old(readPump) && socketCalls == old(socketCalls) + [CloseSocket]
      ensures result.Frame? ==>
        && !done.closed && socketCalls == old(socketCalls)
        && readPump == old(readPump) + [WsMessage(result.msgType, result.data)]
    {
      match result {
        case ReadFailed(_) =>
          var _ := Close(None);
          return true;
        case Frame(t, d) =>
          readPump := readPump + [WsMessage(t, d)];
          return false;
      }
    }

    /**
     * `runReader()` over the answers `results` of successive `ReadMessage` calls: with
     * `done` closed it returns at once; otherwise each frame is pushed to `readPump`
     * in order, and the first failure closes the connection and ends the loop.
     */
    method RunReader(results: seq<ReadResult>)
      requires Valid()
      modifies this, done
      ensures Valid() && writePump == old(writePump)
      ensures old(done.closed) ==> readPump == old(readPump) && socketCalls == old(socketCalls) && done.closed
      ensures !old(done.closed) ==>
        && readPump == old(readPump) + ForwardedFrames(results)
        && (done.closed <==> SomeReadFails(results))
        && socketCalls == old(socketCalls) + (if SomeReadFails(results) then [CloseSocket] else [])
    {
      ForwardedFramesInOrder(results);
      var i := 0;
      while i < |results|
        invariant 0 <= i <= |results|
        invariant Valid() && writePump == old(writePump)
        invariant old(done.closed) ==> readPump == old(readPump) && socketCalls == old(socketCalls) && done.closed
        invariant !old(done.closed) ==>
          && !done.closed && socketCalls == old(socketCalls)
          && (forall k :: 0 <= k < i ==> results[k].Frame?)
          && readPump + ForwardedFrames(results[i..]) == old(readPump) + ForwardedFrames(results)
      {
        if done.closed {
          return;
        }
        ForwardedAt(results, i);
        var stopped := ReaderTurn(results[i]);
        if stopped {
          return;
        }
        i := i + 1;
      }
      assert results[i..] == [];
      assert !old(done.closed) ==> !SomeReadFails(results);
    }
  }
}
