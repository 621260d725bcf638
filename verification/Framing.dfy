/** The stdio session of the chaos harness: line framing over a byte stream that
    arrives in arbitrary pieces, and the bounded capture of standard error. */
module Framing {
  import opened Collections

  const LF: Byte := 10
  const CR: Byte := 13
  const MAX_FRAME_BYTES: nat := 2 * 1024 * 1024
  const MAX_STDERR_BYTES: nat := 2 * 1024 * 1024
  const READ_BLOCK_BYTES: nat := 65536

  /** What one `_read_line` call ends with: a line, or the code it refuses with. */
  datatype Reading =
    | Line(bytes: seq<Byte>)
    | Oversized      // response_oversized
    | Truncated      // truncated_output
    | ServerEof      // server_eof
    | TimedOut       // response_timeout

  /** No line feed among the first `n` bytes. */
  predicate NoLineFeed(s: seq<Byte>, n: nat)
    requires n <= |s|
  {
    forall k :: 0 <= k < n ==> s[k] != LF
  }

  /** `bytearray.find(b"\n")`. */
  function Find(s: seq<Byte>): (i: int)
    ensures -1 <= i < |s|
  {
    FindFrom(s, 0)
  }

  function FindFrom(s: seq<Byte>, start: nat): (i: int)
    requires start <= |s|
    ensures -1 <= i < |s|
    decreases |s| - start
  {
    if start == |s| then -1
    else if s[start] == LF then start
    else FindFrom(s, start + 1)
  }

  lemma {:induction false} FindFromIsFirst(s: seq<Byte>, start: nat)
    requires start <= |s| && NoLineFeed(s, start)
    ensures var i := FindFrom(s, start);
            if i >= 0 then s[i] == LF && NoLineFeed(s, i) else NoLineFeed(s, |s|)
    decreases |s| - start
  {
    if start < |s| && s[start] != LF {
      FindFromIsFirst(s, start + 1);
    }
  }

  /** `Find` is the first line feed, or negative when there is none. */
  lemma FindIsFirst(s: seq<Byte>)
    ensures var i := Find(s);
            if i >= 0 then s[i] == LF && NoLineFeed(s, i) else NoLineFeed(s, |s|)
  {
    FindFromIsFirst(s, 0);
  }

  // ----- Framing as a function of the stream alone -----

  /** The next reading of a stream that ends after `stream`: the first line if its
      line feed is among the first MAX_FRAME_BYTES + 1 bytes. */
  function Next(stream: seq<Byte>): Reading {
    var newline := Find(stream);
    if 0 <= newline <= MAX_FRAME_BYTES then Line(stream[..newline + 1])
    else if |stream| > MAX_FRAME_BYTES then Oversized
    else if stream != [] then Truncated
    else ServerEof
  }

  function Frames(stream: seq<Byte>): seq<seq<Byte>> {
    match Next(stream)
    case Line(bytes) => [bytes] + Frames(stream[|bytes|..])
    case _ => []
  }

  /** The bytes no frame accounts for. */
  function Leftover(stream: seq<Byte>): seq<Byte> {
    match Next(stream)
    case Line(bytes) => Leftover(stream[|bytes|..])
    case _ => stream
  }

  function Concat(frames: seq<seq<Byte>>): seq<Byte> {
    if frames == [] then [] else frames[0] + Concat(frames[1..])
  }

  predicate IsLine(frame: seq<Byte>) {
    0 < |frame| <= MAX_FRAME_BYTES + 1 && frame[|frame| - 1] == LF && NoLineFeed(frame, |frame| - 1)
  }

  lemma NextIsLine(stream: seq<Byte>)
    requires Next(stream).Line?
    ensures IsLine(Next(stream).bytes)
    ensures stream == Next(stream).bytes + stream[|Next(stream).bytes|..]
  {
    FindIsFirst(stream);
  }

  /** Framing loses, invents and reorders nothing: the frames followed by the
      leftover are the stream. */
  lemma {:induction false} FramesPartitionStream(stream: seq<Byte>)
    ensures Concat(Frames(stream)) + Leftover(stream) == stream
    decreases |stream|
  {
    if Next(stream).Line? {
      var bytes := Next(stream).bytes;
      var rest := stream[|bytes|..];
      FramesPartitionStream(rest);
      NextIsLine(stream);
      ConcatCons(bytes, Frames(rest), Leftover(rest));
    }
  }

  lemma ConcatCons(head: seq<Byte>, tail: seq<seq<Byte>>, rest: seq<Byte>)
    ensures Concat([head] + tail) + rest == head + (Concat(tail) + rest)
  {
    assert ([head] + tail)[1..] == tail;
  }

  /** Every frame is one whole line of at most MAX_FRAME_BYTES + 1 bytes. */
  lemma {:induction false} FramesAreLines(stream: seq<Byte>, i: nat)
    requires i < |Frames(stream)|
    ensures IsLine(Frames(stream)[i])
    decreases i
  {
    NextIsLine(stream);
    if i > 0 {
      FramesAreLines(stream[|Next(stream).bytes|..], i - 1);
    }
  }

  /** The final refusal is decided by the leftover's length alone. */
  lemma {:induction false} FinalRefusal(stream: seq<Byte>)
    ensures Next(Leftover(stream)) ==
            (if |Leftover(stream)| > MAX_FRAME_BYTES then Oversized
             else if Leftover(stream) != [] then Truncated else ServerEof)
    decreases |stream|
  {
    if Next(stream).Line? {
      FinalRefusal(stream[|Next(stream).bytes|..]);
    }
  }

  /** The framing test of `parse_json_rpc_line`. */
  predicate FramingAccepted(raw: seq<Byte>) {
    && |raw| <= MAX_FRAME_BYTES
    && |raw| >= 1 && raw[|raw| - 1] == LF
    && multiset(raw)[LF] == 1
    && !(|raw| >= 2 && raw[|raw| - 2] == CR)
  }

  lemma {:induction false} NoOccurrence(s: seq<Byte>)
    requires NoLineFeed(s, |s|)
    ensures multiset(s)[LF] == 0
  {
    assert LF !in s;
  }

  /** Of the lines the session returns, the parser's framing test refuses exactly
      those one byte over the bound and those ending in CR LF. */
  lemma FramingTestOnFrames(frame: seq<Byte>)
    requires IsLine(frame)
    ensures FramingAccepted(frame) <==>
            |frame| <= MAX_FRAME_BYTES && !(|frame| >= 2 && frame[|frame| - 2] == CR)
  {
    var body := frame[..|frame| - 1];
    assert frame == body + [LF];
    NoOccurrence(body);
  }

  lemma NextIgnoresSplit(buffer: seq<Byte>, pending: seq<Byte>, newline: nat)
    requires newline < |buffer| <= MAX_FRAME_BYTES + 1 && newline == Find(buffer)
    ensures Next(buffer + pending) == Line(buffer[..newline + 1])
    ensures (buffer + pending)[newline + 1..] == buffer[newline + 1..] + pending
  {
    var stream := buffer + pending;
    FindIsFirst(buffer);
    FindIsFirst(stream);
    assert stream[newline] == LF && NoLineFeed(stream, newline);
    assert Find(stream) == newline;
    assert stream[..newline + 1] == buffer[..newline + 1];
  }

  lemma FullBufferIsOversized(buffer: seq<Byte>, pending: seq<Byte>)
    requires Find(buffer) < 0 && |buffer| == MAX_FRAME_BYTES + 1
    ensures Next(buffer + pending) == Oversized
  {
    FindIsFirst(buffer);
    FindIsFirst(buffer + pending);
    assert forall k :: 0 <= k < |buffer| ==> (buffer + pending)[k] == buffer[k];
  }

  lemma EndOfStream(buffer: seq<Byte>)
    requires Find(buffer) < 0 && |buffer| <= MAX_FRAME_BYTES
    ensures Next(buffer) == if buffer != [] then Truncated else ServerEof
  {
    FindIsFirst(buffer);
  }

  // ----- The session -----

  /** The buffered reader. `pending` is what the server has written and the session
      has not yet read, after which the stream ends. The operating system chooses
      how many of the requested bytes each read returns (`chunk`) and whether a
      wait ends before the deadline (`ready`), indexed by system call. */
  class Session {
    var buffer: seq<Byte>
    var pending: seq<Byte>
    var calls: nat
    const chunk: nat -> nat
    const ready: nat -> bool

    constructor (stream: seq<Byte>, chunk: nat -> nat, ready: nat -> bool)
      ensures Valid() && Unread() == stream
    {
      buffer, pending, calls := [], stream, 0;
      this.chunk, this.ready := chunk, ready;
    }

    ghost predicate Valid()
      reads this
    {
      |buffer| <= MAX_FRAME_BYTES + 1
    }

    /** The stream as the session's caller sees it. */
    ghost function Unread(): seq<Byte>
      reads this
    {
      buffer + pending
    }

    /** `os.read`: an empty block only at the end of the stream. */
    method Read(request: nat) returns (block: seq<Byte>)
      requires request >= 1
      modifies this`pending, this`calls
      ensures block + pending == old(pending)
      ensures |block| <= request
      ensures block == [] <==> old(pending) == []
    {
      var available := Min(request, |pending|);
      var size := if available == 0 then 0 else 1 + Min(chunk(calls), available - 1);
      block := pending[..size];
      pending := pending[size..];
      calls := calls + 1;
    }

    /** `_read_line`: a timeout leaves the unread stream as it was; anything else
        is the reading the unread stream alone determines. */
    method ReadLine() returns (reading: Reading)
      requires Valid()
      modifies this`buffer, this`pending, this`calls
      ensures Valid()
      ensures reading != TimedOut ==> reading == Next(old(Unread()))
      ensures Unread() == if reading.Line? then old(Unread())[|reading.bytes|..] else old(Unread())
    {
      while true
        invariant Valid()
        invariant Unread() == old(Unread())
        decreases |pending|
      {
        var newline := Find(buffer);
        if newline >= 0 {
          NextIgnoresSplit(buffer, pending, newline);
          reading := Line(buffer[..newline + 1]);
          buffer := buffer[newline + 1..];
          return;
        }
        if |buffer| > MAX_FRAME_BYTES {
          FullBufferIsOversized(buffer, pending);
          return Oversized;
        }
        if !ready(calls) {
          calls := calls + 1;
          return TimedOut;
        }
        var block := Read(Min(READ_BLOCK_BYTES, MAX_FRAME_BYTES + 1 - |buffer|));
        if block == [] {
          assert Unread() == buffer;
          EndOfStream(buffer);
          return if buffer != [] then Truncated else ServerEof;
        }
        Regroup(buffer, block, pending, block + pending, old(Unread()));
        buffer := buffer + block;
      }
    }

    /** Any number of calls, retried across timeouts until one refuses for good.
        Whatever the schedule, the lines returned are the leading frames of the
        stream, and once a call refuses they are all of them. */
    method ReadLines(limit: nat) returns (lines: seq<seq<Byte>>, last: Reading)
      requires Valid()
      modifies this`buffer, this`pending, this`calls
      ensures Valid()
      ensures Explains(old(Unread()), lines, Unread())
      ensures !last.Line? && last != TimedOut ==>
                && lines == Frames(old(Unread()))
                && Unread() == Leftover(old(Unread()))
                && last == Next(Leftover(old(Unread())))
    {
      lines, last := [], TimedOut;
      ghost var stream := Unread();
      for i := 0 to limit
        invariant Valid()
        invariant Explains(stream, lines, Unread())
        invariant last.Line? || last == TimedOut
      {
        ghost var before := Unread();
        last := ReadLine();
        if last.Line? {
          ExplainsLine(stream, lines, before, last.bytes);
          lines := lines + [last.bytes];
        } else if last != TimedOut {
          ExplainsAll(stream, lines, before);
          return;
        }
      }
    }
  }

  /** `lines` are the leading frames of `stream` and `unread` is what remains. */
  ghost predicate Explains(stream: seq<Byte>, lines: seq<seq<Byte>>, unread: seq<Byte>) {
    && Concat(lines) + unread == stream
    && lines + Frames(unread) == Frames(stream)
    && Leftover(unread) == Leftover(stream)
  }

  lemma {:induction false} ExplainsLine(stream: seq<Byte>, lines: seq<seq<Byte>>, unread: seq<Byte>, line: seq<Byte>)
    requires Explains(stream, lines, unread) && Next(unread) == Line(line)
    ensures Explains(stream, lines + [line], unread[|line|..])
  {
    var rest := unread[|line|..];
    ConcatAppend(lines, line);
    NextIsLine(unread);
    FramesUnfold(unread, line);
    Regroup(lines, [line], Frames(rest), Frames(unread), Frames(stream));
    Regroup(Concat(lines), line, rest, unread, stream);
  }

  lemma {:induction false} FramesUnfold(stream: seq<Byte>, line: seq<Byte>)
    requires Next(stream) == Line(line)
    ensures Frames(stream) == [line] + Frames(stream[|line|..])
    ensures Leftover(stream) == Leftover(stream[|line|..])
  {
  }

  lemma {:induction false} ExplainsAll(stream: seq<Byte>, lines: seq<seq<Byte>>, unread: seq<Byte>)
    requires Explains(stream, lines, unread) && !Next(unread).Line?
    ensures lines == Frames(stream) && unread == Leftover(stream)
  {
    assert lines + [] == lines;
  }

  lemma {:induction false} ConcatAppend(frames: seq<seq<Byte>>, frame: seq<Byte>)
    ensures Concat(frames + [frame]) == Concat(frames) + frame
  {
    if frames == [] {
      assert [frame][1..] == [];
    } else {
      ConcatAppend(frames[1..], frame);
      assert (frames + [frame])[1..] == frames[1..] + [frame];
    }
  }

  // ----- Bounded standard error -----

  /** What the drain thread reads: blocks until the first empty one. */
  function Delivered(blocks: seq<seq<Byte>>): seq<Byte> {
    if blocks == [] || blocks[0] == [] then [] else blocks[0] + Delivered(blocks[1..])
  }

  function Clip(s: seq<Byte>): seq<Byte> {
    if |s| <= MAX_STDERR_BYTES then s else s[..MAX_STDERR_BYTES]
  }

  class StderrCapture {
    var capture: seq<Byte>
    var overflow: bool

    constructor ()
      ensures capture == [] && !overflow
    {
      capture, overflow := [], false;
    }

    /** `_drain_stderr`: however the blocks fall, the capture is the clipped
        stream and the flag says exactly whether anything was dropped. */
    method Drain(blocks: seq<seq<Byte>>)
      requires capture == [] && !overflow
      modifies this
      ensures capture == Clip(Delivered(blocks))
      ensures overflow <==> |Delivered(blocks)| > MAX_STDERR_BYTES
    {
      var i := 0;
      ghost var seen := [];
      while i < |blocks|
        invariant 0 <= i <= |blocks|
        invariant seen + Delivered(blocks[i..]) == Delivered(blocks)
        invariant capture == Clip(seen)
        invariant overflow <==> |seen| > MAX_STDERR_BYTES
      {
        var block := blocks[i];
        assert blocks[i..][0] == block && blocks[i..][1..] == blocks[i + 1..];
        if block == [] {
          return;
        }
        var room := MAX_STDERR_BYTES - |capture|;
        if room > 0 {
          capture := capture + block[..Min(room, |block|)];
        }
        if |block| > room {
          overflow := true;
        }
        seen := seen + block;
        i := i + 1;
      }
    }
  }
}
