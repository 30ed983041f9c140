/** The HTTP streamer as it works on buffers: a context that is updated step by step, and a printer. */
module HttpReader {
  import opened DataBuffers
  import opened HttpText
  import opened HttpParser
  import AnetStreamer

  /** findCRLF over the bytes in the buffer. */
  method FindLine(s: Text) returns (r: Option<Line>)
    ensures r == TakeLine(s)
  {
    var i := 0;
    while i < |s| && s[i] != LF
      invariant 0 <= i <= |s| && forall k :: 0 <= k < i ==> s[k] != LF
    {
      i := i + 1;
    }
    FindIsUnique(s, LF, i);
    if i == |s| {
      return None;
    }
    var end := if i > 0 && s[i - 1] == CR then i - 1 else i;
    r := Some(Line(s[..end], i + 1));
  }

  class Reader {
    const input: DataBuffer
    const limit: nat
    var stage: Stage
    var drained: nat
    var count: nat
    var stopped: bool

    constructor (limit: nat)
      ensures input.Valid() && State() == Open(StartLine, [], 0, 0) && this.limit == limit && fresh(input)
    {
      input := new DataBuffer();
      this.limit, stage, drained, count, stopped := limit, StartLine, 0, 0, false;
    }

    ghost function State(): State
      requires input.Valid()
      reads this, input, input.buf
    {
      if stopped then Stopped else Open(stage, input.Contents(), drained, count)
    }

    /** A line and what it does to the context: processStartLine, processHeadersOrTrailers and
        processChunkSize share its shape. */
    method ProcessLine(line: Line) returns (out: seq<Message>)
      requires input.Valid() && !stopped && NeedsLine(stage) && 0 < line.length <= |input.Contents()|
      modifies this, input
      ensures input.Valid() && input.buf == old(input.buf)
      ensures Result(State(), out) == TakeText(old(State()), line, limit)
    {
      hide ParseStart, AddLine, ChunkSize, GetHeader, Decimal, DataBuffer.Valid, DataBuffer.Contents;
      out := [];
      input.DrainData(line.length);
      drained := drained + line.length;
      if stage.StartLine? {
        var start := ParseStart(line.text);
        if start.None? {
          stopped := true;
        } else {
          stage := Headers(Message(start.value, map[], []));
        }
      } else if stage.SizeLine? {
        var size := ChunkSize(line.text);
        if size.None? || (size.value > 0 && drained + size.value > limit) {
          stopped := true;
        } else if size.value == 0 {
          stage := Trailers(stage.msg);
        } else {
          stage := ChunkData(stage.msg, size.value);
        }
      } else if line.text == [] {
        if stage.Headers? {
          out := EndHeaders();
        } else {
          out := [stage.msg];
          Reset();
        }
      } else if count + 1 > HEADERS_LIMIT {
        stopped := true;
      } else {
        count := count + 1;
        var more := stage.msg.(headers := AddLine(stage.msg.headers, line.text));
        stage := if stage.Headers? then Headers(more) else Trailers(more);
      }
    }

    method Reset()
      modifies this
      ensures stage == StartLine && drained == 0 && count == 0 && stopped == old(stopped)
    {
      stage, drained, count := StartLine, 0, 0;
    }

    /** messageHeadersEnd. */
    method EndHeaders() returns (out: seq<Message>)
      requires input.Valid() && !stopped && stage.Headers?
      modifies this
      ensures Result(State(), out) == HeadersEnd(old(stage.msg), input.Contents(), old(drained), old(count), limit)
    {
      hide GetHeader, Decimal, DataBuffer.Valid, DataBuffer.Contents;
      out := [];
      var msg := stage.msg;
      var encoding, length := GetHeader(msg.headers, TRANSFER_ENCODING), GetHeader(msg.headers, CONTENT_LENGTH);
      if encoding.Some? {
        if encoding.value == CHUNKED {
          stage := SizeLine(msg);
        } else {
          stopped := true;
        }
      } else if length.None? {
        if msg.start.Response? {
          stage := EofBody(msg);
        } else {
          out := [msg];
          Reset();
        }
      } else if !AllDigits(length.value) || Decimal(length.value) >= 0x8000_0000 {
        stopped := true;
      } else {
        var n := Decimal(length.value);
        if n == 0 {
          out := [msg];
          Reset();
        } else if n + drained > limit {
          stopped := true;
        } else {
          stage := LengthBody(msg, n);
        }
      }
    }

    /** processLengthBody, for whole bodies and for chunks. */
    method ProcessBody() returns (out: seq<Message>)
      requires input.Valid() && !stopped && (stage.LengthBody? || stage.ChunkData?)
      requires |input.Contents()| > 0 || stage.left == 0
      modifies this, input
      ensures input.Valid() && input.buf == old(input.buf)
      ensures Result(State(), out) == TakeBody(old(State()))
    {
      hide DataBuffer.Valid, DataBuffer.Contents;
      out := [];
      ghost var was := input.Contents();
      var len := input.DataLen();
      var msg, left := stage.msg, stage.left;
      if len >= left {
        var bytes := AnetStreamer.BytesFrom(input, 0, left);
        assert bytes == was[..left];
        input.DrainData(left);
        assert input.Contents() == was[left..];
        var whole := msg.(body := msg.body + bytes);
        if stage.LengthBody? {
          out := [whole];
          Reset();
        } else {
          stage, drained := ChunkEnd(whole), drained + left;
        }
      } else {
        var bytes := AnetStreamer.BytesFrom(input, 0, len);
        assert bytes == was;
        input.DrainData(len);
        var more := msg.(body := msg.body + bytes);
        stage := if stage.LengthBody? then LengthBody(more, left - len) else ChunkData(more, left - len);
        drained := drained + len;
      }
    }

    /** getCRLF. */
    method ProcessChunkEnd()
      requires input.Valid() && !stopped && stage.ChunkEnd? && |input.Contents()| > 0
      modifies this, input
      ensures input.Valid() && input.buf == old(input.buf)
      ensures Result(State(), []) == TakeChunkEnd(old(State()))
    {
      hide DataBuffer.Valid, DataBuffer.Contents;
      ghost var was := input.Contents();
      var len := input.DataLen();
      var head := AnetStreamer.BytesFrom(input, 0, if len == 1 then 1 else 2);
      assert head[0] == was[0] && (len > 1 ==> head[1] == was[1]);
      if head[0] == LF {
        input.DrainData(1);
        assert input.Contents() == was[1..];
        stage, drained := SizeLine(stage.msg), drained + 1;
      } else if head[0] == CR && len == 1 {
        input.DrainData(1);
        drained := drained + 1;
      } else if head[0] == CR && head[1] == LF {
        input.DrainData(2);
        assert input.Contents() == was[2..];
        stage, drained := SizeLine(stage.msg), drained + 2;
      } else {
        stopped := true;
      }
    }

    /** processEOFBody before the end of the stream. */
    method ProcessEofBody()
      requires input.Valid() && !stopped && stage.EofBody?
      modifies this, input
      ensures input.Valid() && input.buf == old(input.buf)
      ensures !stopped && drained == old(drained) && count == old(count) && input.Contents() == []
      ensures stage == EofBody(old(stage.msg).(body := old(stage.msg.body) + old(input.Contents())))
    {
      hide DataBuffer.Valid, DataBuffer.Contents;
      ghost var was := input.Contents();
      var len := input.DataLen();
      var bytes := AnetStreamer.BytesFrom(input, 0, len);
      assert bytes == was;
      input.DrainData(len);
      stage := EofBody(stage.msg.(body := stage.msg.body + bytes));
    }

    /** One step of processData; progress tells whether it could be made. */
    method Step() returns (progress: bool, out: seq<Message>)
      requires input.Valid()
      modifies this, input
      ensures input.Valid() && input.buf == old(input.buf) && progress == Advances(old(State()), limit)
      ensures !progress ==> State() == old(State()) && out == []
      ensures progress ==> Result(State(), out) == Take(old(State()), limit)
    {
      hide TakeText, TakeBody, TakeChunkEnd, TakeLine, DataBuffer.Valid, DataBuffer.Contents;
      progress, out := false, [];
      if stopped {
        return;
      }
      var len := input.DataLen();
      if stage.LengthBody? || stage.ChunkData? {
        progress := len > 0 || stage.left == 0;
        if progress {
          out := ProcessBody();
        }
      } else if stage.EofBody? {
        progress := len > 0;
        if progress {
          ProcessEofBody();
        }
      } else if stage.ChunkEnd? {
        progress := len > 0;
        if progress {
          ProcessChunkEnd();
        }
      } else {
        progress, out := LineStep(len);
      }
    }

    method LineStep(len: nat) returns (progress: bool, out: seq<Message>)
      requires input.Valid() && !stopped && NeedsLine(stage) && len == |input.Contents()|
      modifies this, input
      ensures input.Valid() && input.buf == old(input.buf) && progress == Advances(old(State()), limit)
      ensures !progress ==> State() == old(State()) && out == []
      ensures progress ==> Result(State(), out) == Take(old(State()), limit)
    {
      hide TakeText, TakeLine, DataBuffer.Valid, DataBuffer.Contents;
      out := [];
      var bytes := AnetStreamer.BytesFrom(input, 0, len);
      assert bytes == input.Contents();
      var line := FindLine(bytes);
      progress := line.Some? || len + drained > limit;
      if line.None? {
        stopped := stopped || progress;
      } else if drained + line.value.length > limit {
        stopped := true;
      } else {
        out := ProcessLine(line.value);
      }
    }

    /** What came from the socket, then every message that is complete. */
    method ReadData(room: nat, chunk: Text) returns (out: seq<Message>)
      requires input.Valid() && |chunk| <= room
      modifies this, input, input.buf
      ensures input.Valid()
      ensures Result(State(), out) == Drain(Feed(old(State()), chunk), limit)
    {
      hide Take, Advances, DataBuffer.Valid, DataBuffer.Contents;
      input.Receive(room, chunk);
      ghost var start := State();
      assert start == Feed(old(State()), chunk);
      out := [];
      NothingFirst(Drain(start, limit).out);
      var more := true;
      while more
        invariant input.Valid() && (input.buf == old(input.buf) || fresh(input.buf))
        invariant Drain(start, limit) == Result(Drain(State(), limit).state, out + Drain(State(), limit).out)
        invariant !more ==> !Advances(State(), limit)
        decreases Measure(State()) + if more then 1 else 0
      {
        ghost var t := State();
        var os;
        more, os := Step();
        if more {
          DrainStep(t, limit);
          assert (out + os) + Drain(State(), limit).out == out + (os + Drain(State(), limit).out);
          out := out + os;
        }
      }
      assert out + [] == out;
    }
  }
}

/** HTTPPacket::encode. */
module HttpPrinter {
  import opened DataBuffers
  import opened HttpText
  import opened HttpParser
  import opened HttpMessages

  method HasHeader(fs: seq<Field>, name: Text) returns (found: bool)
    ensures found == HasName(fs, name)
  {
    for i := 0 to |fs|
      invariant forall k :: 0 <= k < i ==> Lower(fs[k].key) != name
    {
      if Lower(fs[i].key) == name {
        return true;
      }
    }
    found := false;
  }

  method WriteFields(fs: seq<Field>, output: DataBuffer)
    requires output.Valid()
    modifies output, output.buf
    ensures output.Valid() && (output.buf == old(output.buf) || fresh(output.buf))
    ensures output.Contents() == old(output.Contents()) + FieldLines(fs)
  {
    hide DataBuffer.Valid, DataBuffer.Contents;
    ghost var was := output.Contents();
    assert fs[0..] == fs;
    for i := 0 to |fs|
      invariant output.Valid() && (output.buf == old(output.buf) || fresh(output.buf))
      invariant output.Contents() + FieldLines(fs[i..]) == was + FieldLines(fs)
    {
      ghost var now := output.Contents();
      output.WriteBytes(fs[i].key);
      output.WriteBytes([COLON, SP]);
      output.WriteBytes(fs[i].value);
      output.WriteBytes(CRLF);
      assert output.Contents() == now + (FieldText(fs[i]) + CRLF);
      assert fs[i..][1..] == fs[i + 1..];
      assert now + (FieldText(fs[i]) + CRLF) + FieldLines(fs[i + 1..]) ==
          now + (FieldText(fs[i]) + CRLF + FieldLines(fs[i + 1..]));
    }
    assert fs[|fs|..] == [];
    assert output.Contents() + [] == output.Contents();
  }

  /** Start line, headers and body; a request without a target and a response without a status are
      refused before anything is written. */
  method Print(p: Packet, output: DataBuffer) returns (ok: bool)
    requires output.Valid()
    modifies output, output.buf
    ensures output.Valid() && (output.buf == old(output.buf) || fresh(output.buf))
    ensures ok == if p.start.Request? then p.start.uri.Some? else p.start.status != 0
    ensures output.Contents() == old(output.Contents()) + if ok then Encode(p) else []
  {
    hide StartText, FieldLines, Fields, Encode, HasName, Digits, DataBuffer.Valid, DataBuffer.Contents;
    ghost var was := output.Contents();
    ok := if p.start.Request? then p.start.uri.Some? else p.start.status != 0;
    if !ok {
      return;
    }
    output.WriteBytes(StartText(p.start));
    output.WriteBytes(CRLF);
    var known := HasHeader(p.headers, CONTENT_LENGTH);
    var fs := if known then p.headers else p.headers + [Field(CONTENT_LENGTH_NAME, Digits(|p.body|))];
    WriteFields(fs, output);
    output.WriteBytes(CRLF);
    if |p.body| > 0 {
      output.WriteBytes(p.body);
    }
    EncodeInParts(was, p, fs);
  }

  lemma EncodeInParts(was: Text, p: Packet, fs: seq<Field>)
    requires fs == if HasName(p.headers, CONTENT_LENGTH) then p.headers
                   else p.headers + [Field(CONTENT_LENGTH_NAME, Digits(|p.body|))]
    ensures was + StartText(p.start) + CRLF + FieldLines(fs) + CRLF + p.body == was + Encode(p)
    ensures p.body == [] ==> was + StartText(p.start) + CRLF + FieldLines(fs) + CRLF == was + Encode(p)
  {
    hide StartText, FieldLines, HasName, Digits;
  }
}
