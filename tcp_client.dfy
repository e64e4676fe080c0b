/** The TCP client: one socket, its writer, a `running` flag, one reader thread, and the
    events it reports to its listener.

    Sockets and threads are opaque. The outcome of a connection attempt and the characters a
    peer sends are parameters, and each thread body (the connect thread, a send thread, the
    teardown thread of `disconnect`, the reader thread) runs as one atomic step. The pure
    functions below give the state after each step; the class `TcpClient` performs the same
    steps on fields and is proved against them. */
module Tcp {
  import opened Wrappers
  import Wire

  /** The listener callbacks, in the order they are made. */
  datatype Event = Connected | Disconnected | Message(text: string) | Error(message: string)

  /** What the opaque socket does when asked to connect. */
  datatype ConnectOutcome = Established | Refused(message: string)

  /** The error messages the client reports. */
  const NotConnected: string := "No conectado"
  const ConnectErrorPrefix: string := "Connect error: "
  const ReadErrorPrefix: string := "Read error: "

  /** The client's state: whether `socket` and `writer` are non-null, the `running` flag,
      whether a reader thread has been started and has not finished, the listener events so
      far, and every character written to the socket. */
  datatype Link = Link(
    hasSocket: bool,
    hasWriter: bool,
    running: bool,
    readerAlive: bool,
    events: seq<Event>,
    wire: string)

  /** A newly constructed client. */
  const Fresh: Link := Link(false, false, false, false, [], [])

  /** One `onMessage` per line, in order. */
  function Messages(lines: seq<string>): (es: seq<Event>)
    ensures |es| == |lines|
    ensures forall i {:trigger es[i]} :: 0 <= i < |lines| ==> es[i] == Message(lines[i])
    decreases |lines|
  {
    if lines == [] then [] else Messages(lines[..|lines| - 1]) + [Message(lines[|lines| - 1])]
  }

  lemma MessagesAppend(lines: seq<string>, line: string)
    ensures Messages(lines + [line]) == Messages(lines) + [Message(line)]
  {
    assert (lines + [line])[..|lines|] == lines;
  }

  /** `disconnectInternal`: flush and close whatever is there, forget writer and socket, and
      report `onDisconnected`; on every call, whatever the state. `running` is left alone. */
  function AfterDisconnectInternal(l: Link): (r: Link)
    ensures !r.hasSocket && !r.hasWriter
    ensures r.events == l.events + [Disconnected]
    ensures r.running == l.running && r.readerAlive == l.readerAlive && r.wire == l.wire
  {
    l.(hasSocket := false, hasWriter := false, events := l.events + [Disconnected])
  }

  /** The body of the connect thread. On success the socket, the writer and `running` are all
      set, `onConnected` is reported, and then the reader is started, so no message can be
      reported before `onConnected`. On failure the listener
      sees `onError("Connect error: ...")` and then the teardown's `onDisconnected`, and no
      socket or writer is left behind. */
  function AfterConnect(l: Link, outcome: ConnectOutcome): (r: Link)
    ensures outcome == Established ==>
      && r.hasSocket && r.hasWriter && r.running && r.readerAlive
      && r.events == l.events + [Connected] && r.wire == l.wire
    ensures outcome.Refused? ==>
      && !r.hasSocket && !r.hasWriter
      && r.events == l.events + [Error(ConnectErrorPrefix + outcome.message), Disconnected]
      && r.running == l.running && r.readerAlive == l.readerAlive && r.wire == l.wire
  {
    match outcome
    case Established =>
      l.(hasSocket := true, hasWriter := true, running := true, readerAlive := true,
         events := l.events + [Connected])
    case Refused(m) =>
      AfterDisconnectInternal(l.(events := l.events + [Error(ConnectErrorPrefix + m)]))
  }

  /** The body of a send thread. With a writer, the framed command goes on the wire and
      nothing is reported; without one, nothing is written and exactly one
      `onError("No conectado")` is reported. The connection state is untouched either way. */
  function AfterSendLine(l: Link, cmd: string): (r: Link)
    ensures r.hasSocket == l.hasSocket && r.hasWriter == l.hasWriter
    ensures r.running == l.running && r.readerAlive == l.readerAlive
    ensures l.hasWriter ==> r.wire == l.wire + Wire.Frame(cmd) && r.events == l.events
    ensures !l.hasWriter ==> r.wire == l.wire && r.events == l.events + [Error(NotConnected)]
  {
    if l.hasWriter then l.(wire := l.wire + Wire.Frame(cmd))
    else l.(events := l.events + [Error(NotConnected)])
  }

  /** `disconnect`: clear `running` first, then tear down (the teardown thread, run at once). */
  function AfterDisconnect(l: Link): (r: Link)
    ensures !r.hasSocket && !r.hasWriter && !r.running
    ensures r.events == l.events + [Disconnected]
    ensures r.readerAlive == l.readerAlive && r.wire == l.wire
  {
    AfterDisconnectInternal(l.(running := false))
  }

  /** Whether the reader loop's condition `running && !socket.isClosed` holds. */
  predicate ReaderLive(l: Link) {
    l.running && l.hasSocket
  }

  /** The events the reader reports before its teardown: nothing if its loop condition is
      false, otherwise one message per line received and, when the stream failed rather than
      closed, `onError("Read error: ...")` (the flag is still set in that case). */
  function ReaderEvents(l: Link, input: string, end: Wire.StreamEnd): seq<Event> {
    if ReaderLive(l) then
      var got := Wire.Receive(input, end);
      Messages(got.lines) + (if got.error.Some? then [Error(ReadErrorPrefix + got.error.value)] else [])
    else []
  }

  /** What the reader loop collected, in terms of `ReaderEvents`. */
  lemma ReaderEventsFrom(l: Link, input: string, end: Wire.StreamEnd,
                         delivered: seq<string>, failure: Option<string>, reported: seq<Event>)
    requires ReaderLive(l) ==> Wire.Receive(input, end) == Wire.Received(delivered, failure)
    requires !ReaderLive(l) ==> delivered == [] && failure == None
    requires reported == l.events + Messages(delivered)
                         + (if failure.Some? && l.running then [Error(ReadErrorPrefix + failure.value)] else [])
    ensures reported == l.events + ReaderEvents(l, input, end)
  {
  }

  /** The body of the reader thread for a stream that delivers `input` and then ends with `end`;
      its `finally` always tears down. */
  function AfterReader(l: Link, input: string, end: Wire.StreamEnd): (r: Link)
    ensures !r.hasSocket && !r.hasWriter && !r.readerAlive
    ensures r.running == l.running && r.wire == l.wire
  {
    AfterDisconnectInternal(l.(readerAlive := false, events := l.events + ReaderEvents(l, input, end)))
  }

  // ---------------------------------------------------------------------------
  // Properties of the transitions
  // ---------------------------------------------------------------------------

  /** Teardown is idempotent on the state but not on the events: a second call reports
      `onDisconnected` again. */
  lemma TeardownTwice(l: Link)
    ensures var once := AfterDisconnectInternal(l);
            var twice := AfterDisconnectInternal(once);
            twice.(events := once.events) == once && twice.events == l.events + [Disconnected, Disconnected]
  {
  }

  /** Two `disconnect` calls report `onDisconnected` twice and no error. */
  lemma DisconnectTwice(l: Link)
    ensures AfterDisconnect(AfterDisconnect(l)).events == l.events + [Disconnected, Disconnected]
  {
  }

  /** Because `disconnect` clears `running` before the socket is closed, a reader that runs
      afterwards reports no message and no error, only its own teardown. */
  lemma DisconnectSilencesReader(l: Link, input: string, end: Wire.StreamEnd)
    ensures AfterReader(AfterDisconnect(l), input, end).events == l.events + [Disconnected, Disconnected]
  {
  }

  /** On a live connection the reader forwards every received line in order, reports a read
      failure with its message, and ends with the teardown's `onDisconnected`. */
  lemma ReaderForwardsInOrder(l: Link, input: string, end: Wire.StreamEnd)
    requires ReaderLive(l)
    ensures var got := Wire.Receive(input, end);
            AfterReader(l, input, end).events ==
              l.events + Messages(got.lines)
              + (if end.ReadError? then [Error(ReadErrorPrefix + end.message)] else [])
              + [Disconnected]
  {
  }

  /** Sending a sequence of commands one after another. */
  function SendAll(l: Link, cmds: seq<string>): Link
    decreases |cmds|
  {
    if cmds == [] then l else SendAll(AfterSendLine(l, cmds[0]), cmds[1..])
  }

  /** With a writer in place, consecutive sends put exactly the framed commands on the wire,
      in order, and report nothing. */
  lemma {:induction false} SendAllWrites(l: Link, cmds: seq<string>)
    requires l.hasWriter
    ensures SendAll(l, cmds).wire == l.wire + Wire.Frames(cmds)
    ensures SendAll(l, cmds).events == l.events
    decreases |cmds|
  {
    if cmds != [] {
      var next := AfterSendLine(l, cmds[0]);
      SendAllWrites(next, cmds[1..]);
      assert l.wire + Wire.Frames(cmds) == (l.wire + Wire.Frame(cmds[0])) + Wire.Frames(cmds[1..]);
    }
  }

  /** End to end: after a successful connect, a peer that reads the wire with `readLine`
      receives exactly the commands that were sent, provided none contains a line terminator. */
  lemma PeerReceivesCommands(cmds: seq<string>, end: Wire.StreamEnd)
    requires Wire.AllUnterminated(cmds)
    ensures Wire.Receive(SendAll(AfterConnect(Fresh, Established), cmds).wire, end).lines == cmds
  {
    var l := AfterConnect(Fresh, Established);
    SendAllWrites(l, cmds);
    assert SendAll(l, cmds).wire == Wire.Frames(cmds);
    Wire.ReceiveFrames(cmds, end);
  }

  /** The steps that can happen to a client. The reader step stands for the reader thread's
      whole run and happens only while such a thread exists. The activity makes a new client
      for every connect, so a connect step is applied only to a client without a reader
      thread; on one that still has a reader it is not applied. */
  datatype Step = ConnectStep(outcome: ConnectOutcome) | SendStep(cmd: string) | DisconnectStep
                | ReaderStep(input: string, end: Wire.StreamEnd)

  function Apply(l: Link, s: Step): Link {
    match s
    case ConnectStep(o) => if l.readerAlive then l else AfterConnect(l, o)
    case SendStep(cmd) => AfterSendLine(l, cmd)
    case DisconnectStep => AfterDisconnect(l)
    case ReaderStep(input, end) => if l.readerAlive then AfterReader(l, input, end) else l
  }

  function ApplyAll(l: Link, steps: seq<Step>): Link
    decreases |steps|
  {
    if steps == [] then l else ApplyAll(Apply(l, steps[0]), steps[1..])
  }

  /** No half-connected state: socket and writer are present together, and while they are a
      reader thread exists that will tear them down. */
  ghost predicate Consistent(l: Link) {
    l.hasSocket == l.hasWriter && (l.hasSocket ==> l.readerAlive)
  }

  lemma {:induction false} ConsistentAlways(l: Link, steps: seq<Step>)
    requires Consistent(l)
    ensures Consistent(ApplyAll(l, steps))
    decreases |steps|
  {
    if steps != [] {
      ConsistentAlways(Apply(l, steps[0]), steps[1..]);
    }
  }

  // ---------------------------------------------------------------------------
  // The client object
  // ---------------------------------------------------------------------------

  class TcpClient {
    var hasSocket: bool
    var hasWriter: bool
    var running: bool
    var readerAlive: bool
    var events: seq<Event>
    var wire: string

    function Snapshot(): Link
      reads this
    {
      Link(hasSocket, hasWriter, running, readerAlive, events, wire)
    }

    constructor ()
      ensures Snapshot() == Fresh
    {
      hasSocket, hasWriter, running, readerAlive := false, false, false, false;
      events, wire := [], [];
    }

    /** The connect thread's body. */
    method Connect(outcome: ConnectOutcome)
      requires !readerAlive
      modifies this
      ensures Snapshot() == AfterConnect(old(Snapshot()), outcome)
    {
      match outcome
      case Established =>
        hasSocket := true;
        hasWriter := true;
        running := true;
        events := events + [Connected];
        readerAlive := true;
      case Refused(m) =>
        events := events + [Error(ConnectErrorPrefix + m)];
        DisconnectInternal();
    }

    /** A send thread's body: the command, then a newline unless it already ends with one. */
    method SendLine(cmd: string)
      modifies this
      ensures Snapshot() == AfterSendLine(old(Snapshot()), cmd)
    {
      if hasWriter {
        wire := wire + cmd;
        if !Wire.EndsWithNewline(cmd) {
          wire := wire + "\n";
        }
        assert wire == old(wire) + Wire.Frame(cmd);
      } else {
        events := events + [Error(NotConnected)];
      }
    }

    method Disconnect()
      modifies this
      ensures Snapshot() == AfterDisconnect(old(Snapshot()))
    {
      running := false;
      DisconnectInternal();
    }

    method DisconnectInternal()
      modifies this
      ensures Snapshot() == AfterDisconnectInternal(old(Snapshot()))
    {
      hasWriter := false;
      hasSocket := false;
      events := events + [Disconnected];
    }

    /** The `try` block of the reader thread: while `running` and the socket is open, read a
        line and report it, leaving the loop at end of stream or when a read fails (the
        failure's message is returned). */
    method ReadLoop(input: string, end: Wire.StreamEnd) returns (delivered: seq<string>, failure: Option<string>)
      modifies this`events
      ensures ReaderLive(Snapshot()) ==> Wire.Receive(input, end) == Wire.Received(delivered, failure)
      ensures !ReaderLive(Snapshot()) ==> delivered == [] && failure == None
      ensures events == old(events) + Messages(delivered)
    {
      ghost var got := Wire.Receive(input, end);
      var rest := input;
      failure := None;
      delivered := [];
      while running && hasSocket
        invariant events == old(events) + Messages(delivered)
        invariant !(running && hasSocket) ==> delivered == []
        invariant got.lines == delivered + Wire.Receive(rest, end).lines
        invariant got.error == Wire.Receive(rest, end).error
        invariant failure == None
        decreases |rest|
      {
        var r := Wire.ReadLine(rest, end);
        if !r.Line? {
          Wire.ReceiveLast(got, delivered, rest, end);
          if r.Failed? {
            failure := Some(r.message);
          }
          break;
        }
        Wire.ReceiveNextLine(got, delivered, rest, end);
        MessagesAppend(delivered, r.text);
        events := events + [Message(r.text)];
        delivered := delivered + [r.text];
        rest := r.rest;
      }
    }

    /** The reader thread's body: the read loop, then `onError` for a failure that happens
        while still `running`, and in every case the teardown of `finally`. */
    method RunReader(input: string, end: Wire.StreamEnd)
      requires readerAlive
      modifies this
      ensures Snapshot() == AfterReader(old(Snapshot()), input, end)
    {
      var delivered, failure := ReadLoop(input, end);
      if failure.Some? && running {
        events := events + [Error(ReadErrorPrefix + failure.value)];
      }
      ReaderEventsFrom(old(Snapshot()), input, end, delivered, failure, events);
      readerAlive := false;
      DisconnectInternal();
    }
  }
}
