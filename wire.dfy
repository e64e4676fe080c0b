/** The text protocol on the TCP link: one command per line.
    The sender frames a command by appending a newline unless it already ends in one;
    the receiver splits the incoming characters into lines the way `BufferedReader.readLine`
    does (a line ends at `\n`, at `\r`, or at `\r\n`). */
module Wire {
  import opened Wrappers

  predicate EndsWithNewline(s: string) {
    |s| > 0 && s[|s| - 1] == '\n'
  }

  /** The framing rule of `sendLine`: the command goes out first, then a `\n` unless the
      command already ends with one. So the output starts with the command, ends with a
      newline and is at most one character longer. */
  function Frame(cmd: string): (line: string)
    ensures cmd <= line && |line| <= |cmd| + 1
    ensures EndsWithNewline(line)
    ensures EndsWithNewline(cmd) <==> line == cmd
  {
    if EndsWithNewline(cmd) then cmd else cmd + "\n"
  }

  /** Framing a framed line changes nothing. */
  lemma FrameIdempotent(cmd: string)
    ensures Frame(Frame(cmd)) == Frame(cmd)
  {
  }

  /** Whether the caller wrote the terminator or not, the same line goes out. */
  lemma FrameAbsorbsTerminator(cmd: string)
    requires !EndsWithNewline(cmd)
    ensures Frame(cmd + "\n") == Frame(cmd) == cmd + "\n"
  {
  }

  /** The characters written for a sequence of commands sent one after another. */
  function Frames(cmds: seq<string>): (w: string)
    ensures cmds == [] <==> w == []
  {
    if cmds == [] then [] else Frame(cmds[0]) + Frames(cmds[1..])
  }

  // ---------------------------------------------------------------------------
  // Receiving side: BufferedReader.readLine over a finite stream
  // ---------------------------------------------------------------------------

  predicate IsTerminator(c: char) { c == '\n' || c == '\r' }

  predicate NoTerminator(s: string) { forall i :: 0 <= i < |s| ==> !IsTerminator(s[i]) }

  /** How the stream ends once its characters are used up. */
  datatype StreamEnd = PeerClosed | ReadError(message: string)

  /** The outcome of one `readLine` call. */
  datatype ReadResult = Line(text: string, rest: string) | EndOfStream | Failed(message: string)

  /** The length of the first line of `s`: the index of its first terminator, or `|s|`. */
  function LineLength(s: string): (k: nat)
    ensures k <= |s|
    ensures k < |s| ==> IsTerminator(s[k])
    decreases |s|
  {
    if s == [] || IsTerminator(s[0]) then 0 else 1 + LineLength(s[1..])
  }

  /** The first line holds no terminator. */
  lemma {:induction false} LineLengthUnterminated(s: string)
    ensures NoTerminator(s[..LineLength(s)])
    decreases |s|
  {
    if s != [] && !IsTerminator(s[0]) {
      LineLengthUnterminated(s[1..]);
      var k := LineLength(s);
      forall i | 0 <= i < k ensures !IsTerminator(s[..k][i]) {
        if i > 0 {
          assert s[..k][i] == s[1..][..k - 1][i - 1];
        }
      }
    }
  }

  /** One `readLine`: the characters up to the first terminator, which is consumed with it
      (`\r\n` counts as one terminator). Without a terminator, a closed stream yields its
      remaining characters as a last line, or end of stream when they are used up; a failing
      stream throws. */
  function ReadLine(input: string, end: StreamEnd): (r: ReadResult)
    ensures r.Line? ==> |r.rest| < |input|
    ensures r.EndOfStream? <==> input == [] && end == PeerClosed
  {
    var k := LineLength(input);
    if k < |input| then
      var width := if input[k] == '\r' && k + 1 < |input| && input[k + 1] == '\n' then 2 else 1;
      Line(input[..k], input[k + width..])
    else
      match end
      case PeerClosed => if input == [] then EndOfStream else Line(input, [])
      case ReadError(m) => Failed(m)
  }

  /** A line read holds no terminator, and a line ended by a terminator is exactly its text
      followed by that terminator. */
  lemma ReadLineText(input: string, end: StreamEnd)
    ensures ReadLine(input, end).Line? ==> NoTerminator(ReadLine(input, end).text)
    ensures LineLength(input) < |input| ==> input[..LineLength(input)] == ReadLine(input, end).text
  {
    LineLengthUnterminated(input);
  }

  /** Everything the reader obtains from a stream: its lines in order, then either a clean
      end (`error == None`) or the message of the read failure. */
  datatype Received = Received(lines: seq<string>, error: Option<string>)

  function Receive(input: string, end: StreamEnd): (r: Received)
    ensures end == PeerClosed ==> r.error == None
    ensures end.ReadError? ==> r.error == Some(end.message)
    decreases |input|
  {
    match ReadLine(input, end)
    case Line(text, rest) =>
      var tail := Receive(rest, end);
      Received([text] + tail.lines, tail.error)
    case EndOfStream => Received([], None)
    case Failed(m) => Received([], Some(m))
  }

  /** What one `readLine` contributes to everything received. */
  lemma ReceiveUnfold(input: string, end: StreamEnd)
    ensures match ReadLine(input, end)
            case Line(text, rest) =>
              Receive(input, end) == Received([text] + Receive(rest, end).lines, Receive(rest, end).error)
            case EndOfStream => Receive(input, end) == Received([], None)
            case Failed(m) => Receive(input, end) == Received([], Some(m))
  {
  }

  /** A reader that has collected `delivered` and still faces `rest` collects one more line. */
  lemma ReceiveNextLine(got: Received, delivered: seq<string>, rest: string, end: StreamEnd)
    requires ReadLine(rest, end).Line?
    requires got.lines == delivered + Receive(rest, end).lines && got.error == Receive(rest, end).error
    ensures var next := ReadLine(rest, end).rest;
            got.lines == (delivered + [ReadLine(rest, end).text]) + Receive(next, end).lines
            && got.error == Receive(next, end).error
  {
    ReceiveUnfold(rest, end);
  }

  /** A reader whose next `readLine` yields no line has collected everything. */
  lemma ReceiveLast(got: Received, delivered: seq<string>, rest: string, end: StreamEnd)
    requires !ReadLine(rest, end).Line?
    requires got.lines == delivered + Receive(rest, end).lines && got.error == Receive(rest, end).error
    ensures got == Received(delivered, if ReadLine(rest, end).Failed? then Some(ReadLine(rest, end).message) else None)
  {
    ReceiveUnfold(rest, end);
  }

  /** A framed command followed by anything reads back as that command. */
  lemma ReadFramed(cmd: string, rest: string, end: StreamEnd)
    requires NoTerminator(cmd)
    ensures ReadLine(Frame(cmd) + rest, end) == Line(cmd, rest)
  {
    assert !EndsWithNewline(cmd) by {
      if |cmd| > 0 {
        assert !IsTerminator(cmd[|cmd| - 1]);
      }
    }
    var t := "\n" + rest;
    var s := Frame(cmd) + rest;
    assert s == cmd + t by {
      ConcatAssociative(cmd, "\n", rest);
    }
    LineLengthAfterPrefix(cmd, t);
    assert s[..|cmd|] == cmd && s[|cmd|] == '\n';
    assert s[|cmd| + 1..] == rest;
  }

  lemma ConcatAssociative(a: string, b: string, c: string)
    ensures (a + b) + c == a + (b + c)
  {
  }

  lemma {:induction false} LineLengthAfterPrefix(p: string, t: string)
    requires NoTerminator(p) && t != [] && IsTerminator(t[0])
    ensures LineLength(p + t) == |p|
    decreases |p|
  {
    var s := p + t;
    if p == [] {
      assert s == t;
    } else {
      assert s[0] == p[0] && !IsTerminator(p[0]);
      assert s[1..] == p[1..] + t;
      assert NoTerminator(p[1..]) by {
        forall i | 0 <= i < |p[1..]| ensures !IsTerminator(p[1..][i]) {
          assert p[1..][i] == p[i + 1];
        }
      }
      LineLengthAfterPrefix(p[1..], t);
      assert LineLength(s) == 1 + LineLength(s[1..]);
    }
  }

  /** Receiving framed commands yields the first command, then whatever the rest yields. */
  lemma ReceiveFirstFrame(cmds: seq<string>, end: StreamEnd)
    requires cmds != [] && NoTerminator(cmds[0])
    ensures Receive(Frames(cmds), end).lines == [cmds[0]] + Receive(Frames(cmds[1..]), end).lines
  {
    var tail := Frames(cmds[1..]);
    assert Frames(cmds) == Frame(cmds[0]) + tail;
    ReadFramed(cmds[0], tail, end);
    ReceiveUnfold(Frames(cmds), end);
  }

  /** No command in the sequence contains a line terminator. */
  predicate AllUnterminated(cmds: seq<string>)
    decreases |cmds|
  {
    cmds == [] || (NoTerminator(cmds[0]) && AllUnterminated(cmds[1..]))
  }

  /** Round trip of the protocol: the receiver recovers exactly the commands that were sent,
      in order, provided no command contains a line terminator of its own. */
  lemma {:induction false} ReceiveFrames(cmds: seq<string>, end: StreamEnd)
    requires AllUnterminated(cmds)
    ensures Receive(Frames(cmds), end).lines == cmds
    decreases |cmds|
  {
    if cmds != [] {
      var tail := cmds[1..];
      assert NoTerminator(cmds[0]) && AllUnterminated(tail);
      ReceiveFirstFrame(cmds, end);
      ReceiveFrames(tail, end);
      HeadTail(cmds);
    }
  }

  lemma HeadTail<T>(s: seq<T>)
    requires s != []
    ensures [s[0]] + s[1..] == s
  {
  }
}
