/** The direct connection: large payloads bypass the output buffer on the way out and the input
    buffer on the way in. The socket takes and gives any number of bytes. */
module DirectConnection {
  import opened DataBuffers
  import opened DirectFrames
  import AnetFrames
  import AnetStreamer

  const READ_WRITE_SIZE: nat := 8192

  class Socket {
    ghost var wire: seq<Byte>

    constructor ()
      ensures wire == []
    {
      wire := [];
    }

    /** A write that takes part of what it is given, or nothing; fatal tells a real error from one
        that only asks to try again. */
    method Write(s: seq<Byte>) returns (n: int, fatal: bool)
      modifies this
      ensures n <= |s| && wire == old(wire) + if n > 0 then s[..n] else []
    {
      n, fatal := *, *;
      if n > |s| {
        n := -1;
      }
      wire := wire + if n > 0 then s[..n] else [];
    }
  }

  /** The payload that goes out past the buffer, if it is large enough. */
  function Direct(p: Packet): seq<Byte> {
    if |p.payload| >= THRESHOLD then p.payload else []
  }

  /** A buffer with the part of a frame behind it that goes through the buffer. */
  ghost function Encoded(was: seq<Byte>, p: Packet): seq<Byte>
    requires Valid(p)
  {
    was + InfoBytes(InfoOf(p)) + p.msg + if |p.payload| >= THRESHOLD then [] else p.payload
  }

  /** DirectPacketStreamer::encode: the frame up to the payload, and a small payload with it. */
  method Encode(p: Packet, output: DataBuffer) returns (direct: bool)
    requires output.Valid() && Valid(p)
    modifies output, output.buf
    ensures output.Valid() && (output.buf == old(output.buf) || fresh(output.buf))
    ensures Direct(p) == if direct then p.payload else []
    ensures output.Contents() == Encoded(old(output.Contents()), p)
  {
    hide InfoBytes, Word, DataBuffer.Valid, DataBuffer.Contents;
    ghost var was := output.Contents();
    var oldLen := output.DataLen();
    WriteInfo(p, output);
    if |p.msg| > 0 {
      output.WriteBytes(p.msg);
    }
    var i := Info(p.chid, p.pcode, 0, 0, |p.payload|, p.toReceive);
    assert output.Contents() == was + (InfoBytes(i) + p.msg);
    FillSizes(i, p.msg, oldLen, was, output);
    direct := |p.payload| >= THRESHOLD;
    ghost var info := InfoBytes(InfoOf(p));
    assert output.Contents() == was + info + p.msg;
    if !direct && |p.payload| > 0 {
      output.WriteBytes(p.payload);
    }
  }

  /** Fills in the two sizes that are known once the message is encoded. */
  method FillSizes(i: Info, ghost msg: seq<Byte>, oldLen: nat, ghost was: seq<Byte>, output: DataBuffer)
    requires output.Valid() && ValidInfo(i) && 28 + |msg| + i.payloadSize <= AnetFrames.MAX_PACKAGE_SIZE
    requires oldLen == |was| && output.Contents() == was + (InfoBytes(i) + msg)
    modifies output.buf
    ensures output.Valid()
    ensures output.Contents() == was + (InfoBytes(i.(dataLen := 28 + |msg| + i.payloadSize, msgSize := |msg|)) + msg)
  {
    hide InfoBytes, Word, DataBuffer.Valid, DataBuffer.Contents;
    var newLen := output.DataLen();
    var msgSize := newLen - oldLen - DIRECT_INFO_LEN;
    var dataLen := DIRECT_INFO_LEN + msgSize + i.payloadSize - AnetFrames.PACKET_INFO_LEN;
    output.FillInt32(oldLen + 12, dataLen);
    LengthFilled(was, i, msg, dataLen);
    output.FillInt32(oldLen + 8, i.pcode);
    CodeFilled(was, i.(dataLen := dataLen), msg);
    output.FillInt32(oldLen + 32, msgSize);
    SizeFilled(was, i.(dataLen := dataLen), msg, msgSize);
  }

  /** The packet info and the direct header, before the sizes are known. */
  method WriteInfo(p: Packet, output: DataBuffer)
    requires output.Valid() && Valid(p)
    modifies output, output.buf
    ensures output.Valid() && (output.buf == old(output.buf) || fresh(output.buf))
    ensures output.Contents() ==
            old(output.Contents()) + InfoBytes(Info(p.chid, p.pcode, 0, 0, |p.payload|, p.toReceive))
  {
    hide AnetFrames.InfoBytes, InfoBytes, Word, DataBuffer.Valid, DataBuffer.Contents;
    ghost var was := output.Contents();
    AnetStreamer.WriteInfo(p.chid, p.pcode, output);
    WriteFour(DIRECT_FLAG, DIRECT_VER, 0, 0, output);
    output.WriteInt32(0);
    output.WriteInt32(|p.payload|);
    output.WriteInt32(p.toReceive);
    InfoInParts(was, Info(p.chid, p.pcode, 0, 0, |p.payload|, p.toReceive));
  }

  method WriteFour(a: nat, b: nat, c: nat, d: nat, output: DataBuffer)
    requires output.Valid() && a < 0x1_0000_0000 && b < 0x1_0000_0000 && c < 0x1_0000_0000 && d < 0x1_0000_0000
    modifies output, output.buf
    ensures output.Valid() && (output.buf == old(output.buf) || fresh(output.buf))
    ensures output.Contents() == old(output.Contents()) + Word(a) + Word(b) + Word(c) + Word(d)
  {
    hide Word, DataBuffer.Valid, DataBuffer.Contents;
    output.WriteInt32(a);
    output.WriteInt32(b);
    output.WriteInt32(c);
    output.WriteInt32(d);
  }

  lemma InfoInParts(was: seq<Byte>, i: Info)
    requires ValidInfo(i)
    ensures was + AnetFrames.InfoBytes(AnetFrames.Header(i.chid, i.pcode, i.dataLen))
            + Word(DIRECT_FLAG) + Word(DIRECT_VER) + Word(0) + Word(0) + Word(i.msgSize) + Word(i.payloadSize)
            + Word(i.toReceive)
            == was + InfoBytes(i)
  {
    hide AnetFrames.InfoBytes, Word;
  }

  lemma LengthFilled(was: seq<Byte>, i: Info, msg: seq<Byte>, n: nat)
    requires ValidInfo(i) && n <= AnetFrames.MAX_PACKAGE_SIZE
    ensures var s := was + (InfoBytes(i) + msg);
            s[..|was| + 12] + Word(n) + s[|was| + 16..] == was + (InfoBytes(i.(dataLen := n)) + msg)
  {
    hide Word;
  }

  lemma CodeFilled(was: seq<Byte>, i: Info, msg: seq<Byte>)
    requires ValidInfo(i)
    ensures var s := was + (InfoBytes(i) + msg);
            s[..|was| + 8] + Word(i.pcode) + s[|was| + 12..] == s
  {
    hide Word;
  }

  lemma SizeFilled(was: seq<Byte>, i: Info, msg: seq<Byte>, n: nat)
    requires ValidInfo(i) && AnetFrames.IsWord(n)
    ensures var s := was + (InfoBytes(i) + msg);
            s[..|was| + 32] + Word(n) + s[|was| + 36..] == was + (InfoBytes(i.(msgSize := n)) + msg)
  {
    hide Word;
  }

  // ----- Writing ---------------------------------------------------------------------------------

  function Stream(wire: seq<Byte>, buffer: seq<Byte>, tail: seq<Byte>): seq<Byte> {
    wire + buffer + tail
  }

  class Writer {
    const socket: Socket
    const output: DataBuffer
    var queue: seq<Packet>
    var payload: seq<Byte>
    var left: nat
    ghost var popped: seq<Packet>

    ghost predicate Valid()
      reads this, output
    {
      && output.Valid() && left <= |payload|
      && AllValid(queue) && AllValid(popped)
    }

    /** What of the payload is still to be sent. */
    ghost function Tail(): seq<Byte>
      requires left <= |payload|
      reads this
    {
      payload[|payload| - left..]
    }

    /** Nothing is lost, repeated or out of order: what is on the wire, in the buffer and left of the
        payload is the frames of the packets taken so far, and nothing else. */
    ghost predicate InOrder()
      requires Valid()
      reads this, socket, output, output.buf
    {
      Stream(socket.wire, output.Contents(), Tail()) == Frames(popped)
    }

    constructor (queue: seq<Packet>)
      requires AllValid(queue)
      ensures Valid() && InOrder() && this.queue == queue && popped == [] && fresh(socket) && fresh(output)
    {
      socket := new Socket();
      output := new DataBuffer();
      this.queue, payload, left, popped := queue, [], 0, [];
    }

    method SendBuffer() returns (n: int, fatal: bool)
      requires Valid() && InOrder()
      modifies socket, output`data, output`free
      ensures Valid() && InOrder()
    {
      hide DirectFrames.Valid, Frames, DataBuffer.Valid, DataBuffer.Contents;
      ghost var wire, was := socket.wire, output.Contents();
      var len := output.DataLen();
      var s := AnetStreamer.BytesFrom(output, 0, len);
      assert s == was;
      n, fatal := socket.Write(s);
      if n > 0 {
        output.DrainData(n);
        assert output.Contents() == was[n..];
        assert was == was[..n] + was[n..];
        Regroup(wire, was[..n], was[n..], Tail());
      } else {
        assert wire + [] == wire;
      }
    }

    /** Straight from the memory of the packet, and only when nothing is ahead of it in the buffer. */
    method SendPayload() returns (n: int, fatal: bool)
      requires Valid() && InOrder() && left > 0 && output.Contents() == []
      modifies socket, `left
      ensures Valid() && InOrder()
    {
      hide DirectFrames.Valid, Frames;
      ghost var wire, tail := socket.wire, Tail();
      n, fatal := socket.Write(payload[|payload| - left..]);
      if n > 0 {
        left := left - n;
        assert Tail() == tail[n..] && tail == tail[..n] + tail[n..];
      }
      assert wire + [] == wire;
      assert wire + [] + tail == wire + tail;
    }

    /** Pops the next packet and encodes it; a large payload stays where it is. */
    method TakePacket()
      requires Valid() && InOrder() && |queue| > 0 && left == 0
      modifies this, output, output.buf
      ensures Valid() && InOrder() && (output.buf == old(output.buf) || fresh(output.buf))
      ensures queue == old(queue)[1..] && popped == old(popped) + [old(queue)[0]]
      ensures left == |Direct(old(queue)[0])|
    {
      hide DirectFrames.Valid, Frames, DataBuffer.Valid, DataBuffer.Contents;
      var p := queue[0];
      queue := queue[1..];
      StartPacket(p);
    }

    method StartPacket(p: Packet)
      requires Valid() && InOrder() && left == 0 && DirectFrames.Valid(p)
      modifies `payload, `left, `popped, output, output.buf
      ensures Valid() && InOrder() && (output.buf == old(output.buf) || fresh(output.buf))
      ensures popped == old(popped) + [p] && left == |Direct(p)|
    {
      hide DirectFrames.Valid, Frames, Frame, InfoBytes, InfoOf, Stream, Encoded, Direct, AllValid, DataBuffer.Valid,
          DataBuffer.Contents;
      NoTail();
      FramesLast(popped, p);
      FrameInParts(socket.wire, output.Contents(), p);
      popped := popped + [p];
      var direct := Encode(p, output);
      SetPayload(if direct then p.payload else []);
    }

    lemma NoTail()
      requires left == 0
      ensures Tail() == []
    {
    }

    method SetPayload(s: seq<Byte>)
      modifies `payload, `left
      ensures payload == s && left == |s| && Tail() == s
    {
      payload, left := s, |s|;
    }

    /** The inner loop of writeData: packets into the buffer until it is full enough, or until a
        payload goes out directly. */
    method FillOutput(ret0: int, count0: nat) returns (ret: int, count: nat, fatal: bool)
      requires Valid() && InOrder()
      modifies this, socket, output, output.buf
      ensures Valid() && InOrder() && (output.buf == old(output.buf) || fresh(output.buf))
      ensures |queue| <= |old(queue)| && popped + queue == old(popped) + old(queue)
      ensures old(left) == 0 && old(output.Contents()) == [] && |old(queue)| > 0 ==> |queue| < |old(queue)|
    {
      hide DirectFrames.Valid, Frames, AllValid, Stream, Direct, DataBuffer.Valid, DataBuffer.Contents, DataBuffer.Room;
      ret, count, fatal := ret0, count0, false;
      var len := output.DataLen();
      while len < READ_WRITE_SIZE
        invariant Valid() && InOrder() && len == |output.Contents()|
        invariant output.buf == old(output.buf) || fresh(output.buf)
        invariant |queue| <= |old(queue)| && popped + queue == old(popped) + old(queue)
        invariant |queue| == |old(queue)| ==> len == |old(output.Contents())| && left == old(left)
        decreases |queue|
      {
        if left == 0 {
          if |queue| == 0 {
            break;
          }
          Moves(popped, queue);
          TakePacket();
        }
        len := output.DataLen();
        if left > 0 {
          if len > 0 {
            ret, fatal := SendBuffer();
            count := count + 1;
            len := output.DataLen();
            if len > 0 {
              break;
            }
          }
          ret, fatal := SendPayload();
          count := count + 1;
          break;
        }
      }
    }

    /** writeData: returns false only on a real error, and then drops what it could not send. */
    method WriteData() returns (ok: bool)
      requires Valid() && InOrder()
      modifies this, socket, output, output.buf
      ensures Valid() && popped + queue == old(popped) + old(queue)
      ensures ok ==> InOrder()
      ensures !ok ==> left == 0 && output.Contents() == []
    {
      hide DirectFrames.Valid, Frames, DataBuffer.Valid, DataBuffer.Contents;
      var ret, count, fatal := 0, 0, false;
      var again := true;
      ghost var first := true;
      while again
        invariant Valid() && InOrder() && popped + queue == old(popped) + old(queue)
        invariant output.buf == old(output.buf) || fresh(output.buf)
        invariant again && !first ==> left == 0 && output.Contents() == [] && |queue| > 0
        decreases first, |queue|
      {
        first := false;
        ret, count, fatal := FillOutput(ret, count);
        var len := output.DataLen();
        if len > 0 {
          ret, fatal := SendBuffer();
          count := count + 1;
          len := output.DataLen();
        }
        again := ret > 0 && len == 0 && left == 0 && |queue| > 0 && count < 10;
      }
      ok := !fatal;
      if fatal {
        Clear();
      }
    }

    /** clearOutputBuffer and clearWritingPacket. */
    method Clear()
      requires Valid()
      modifies this, output
      ensures Valid() && left == 0 && output.Contents() == [] && popped == old(popped) && queue == old(queue)
    {
      var len := output.DataLen();
      output.DrainData(len);
      payload, left := [], 0;
    }
  }

  lemma Moves(ps: seq<Packet>, q: seq<Packet>)
    requires |q| > 0
    ensures (ps + [q[0]]) + q[1..] == ps + q
  {
  }

  lemma FrameInParts(wire: seq<Byte>, was: seq<Byte>, p: Packet)
    requires DirectFrames.Valid(p)
    ensures Stream(wire, Encoded(was, p), Direct(p)) == Stream(wire, was, []) + Frame(p)
  {
    hide InfoBytes;
  }

  lemma {:induction false} FramesLast(ps: seq<Packet>, p: Packet)
    requires AllValid(ps) && DirectFrames.Valid(p)
    ensures AllValid(ps + [p]) && Frames(ps + [p]) == Frames(ps) + Frame(p)
  {
    hide Frame, DirectFrames.Valid;
    if |ps| == 0 {
      assert (ps + [p])[1..] == [];
      assert Frames(ps + [p]) == Frame(p) + [];
    } else {
      FramesLast(ps[1..], p);
      assert (ps + [p])[1..] == ps[1..] + [p];
    }
  }

  lemma Regroup(a: seq<Byte>, b: seq<Byte>, c: seq<Byte>, d: seq<Byte>)
    ensures a + (b + c) + d == (a + b) + c + d
  {
  }

  // ----- Reading ---------------------------------------------------------------------------------

  /** How far the current packet is: the payload is in its place, up to the offset. */
  datatype Progress =
    | Nothing
    | Announced(info: Info)
    | Filling(info: Info, msg: seq<Byte>, offset: nat)

  class Reader {
    const input: DataBuffer
    /** The memory that callers have provided for the payloads of their channels. */
    const memory: map<nat, array<Byte>>
    var progress: Progress
    var stopped: bool

    ghost function Rooms(): map<nat, nat>
      reads memory.Values
    {
      map k | k in memory :: memory[k].Length
    }

    ghost predicate Valid()
      reads this, input, memory.Values
    {
      && input.Valid() && (input.buf != null ==> input.buf !in memory.Values)
      && (progress.Filling? && progress.info.payloadSize > 0 ==>
            && progress.offset <= progress.info.payloadSize && progress.info.chid in memory
            && progress.info.payloadSize <= memory[progress.info.chid].Length)
    }

    ghost function Stage(): Stage
      requires Valid()
      reads this, input, memory.Values
    {
      match progress
      case Nothing => NoPacket
      case Announced(i) => NeedMessage(i)
      case Filling(i, msg, offset) => NeedPayload(i, msg, if i.payloadSize == 0 then [] else memory[i.chid][..offset])
    }

    ghost function State(): State
      requires Valid()
      reads this, input, input.buf, memory.Values
    {
      if stopped then Stopped else Open(Stage(), input.Contents())
    }

    constructor (memory: map<nat, array<Byte>>)
      ensures Valid() && State() == Open(NoPacket, []) && this.memory == memory && fresh(input)
    {
      input := new DataBuffer();
      this.memory, progress, stopped := memory, Nothing, false;
    }

    method TakeInfo()
      requires Valid() && Advances(State()) && progress.Nothing?
      modifies this, input, input.buf
      ensures Valid() && (input.buf == old(input.buf) || fresh(input.buf))
      ensures (State(), []) == Take(old(State()), Rooms())
    {
      hide GoodInfo, ReadInfo, DataBuffer.Valid, DataBuffer.Contents, DataBuffer.Room;
      var i, good := ReadDirectInfo(input);
      if good && i.msgSize < 0x8000_0000 {
        input.EnsureFree(i.msgSize);
        progress := Announced(i);
      } else {
        stopped := true;
      }
    }

    /** Decodes the message, and looks for the memory its payload goes to. */
    method TakeMessage()
      requires Valid() && Advances(State()) && progress.Announced?
      modifies this, input
      ensures Valid() && input.buf == old(input.buf)
      ensures (State(), []) == Take(old(State()), Rooms())
    {
      hide DataBuffer.Valid, DataBuffer.Contents;
      var i := progress.info;
      var msg := AnetStreamer.BytesFrom(input, 0, i.msgSize);
      ghost var was := input.Contents();
      assert msg == was[..i.msgSize];
      input.DrainData(i.msgSize);
      if i.payloadSize == 0 ||
          (i.payloadSize < 0x8000_0000 && i.chid in memory && i.payloadSize <= memory[i.chid].Length) {
        progress := Filling(i, msg, 0);
      } else {
        stopped := true;
      }
    }

    /** The part of readPayload that empties the buffer into the provided memory. */
    method TakePayload()
      requires Valid() && Advances(State()) && progress.Filling? && progress.offset < progress.info.payloadSize
      modifies this, input, memory.Values
      ensures Valid() && input.buf == old(input.buf)
      ensures (State(), []) == Take(old(State()), Rooms())
    {
      hide DataBuffer.Valid, DataBuffer.Contents;
      var Filling(i, msg, offset) := progress;
      var len := input.DataLen();
      var n := if len >= i.payloadSize - offset then i.payloadSize - offset else len;
      ghost var was := input.Contents();
      var bytes := AnetStreamer.BytesFrom(input, 0, n);
      assert bytes == was[..n];
      Store(i, msg, offset, bytes);
      input.DrainData(n);
      assert input.Contents() == was[n..];
    }

    /** Puts bytes behind those of the payload that are in place already. */
    method Store(i: Info, msg: seq<Byte>, offset: nat, bytes: seq<Byte>)
      requires Valid() && progress == Filling(i, msg, offset) && offset + |bytes| <= i.payloadSize && i.payloadSize > 0
      modifies `progress, memory.Values
      ensures Valid() && input.Contents() == old(input.Contents())
      ensures progress == Filling(i, msg, offset + |bytes|)
      ensures Stage() == NeedPayload(i, msg, old(memory[i.chid][..offset]) + bytes)
    {
      var a := memory[i.chid];
      assert a in memory.Values;
      ghost var was := a[..];
      CopyIn(a, offset, bytes);
      progress := Filling(i, msg, offset + |bytes|);
      assert a[..offset + |bytes|] == was[..offset] + bytes;
    }

    method Deliver() returns (p: Packet)
      requires Valid() && !stopped && progress.Filling? &&
               (progress.info.payloadSize > 0 ==> progress.offset == progress.info.payloadSize)
      modifies `progress
      ensures Valid() && Advances(old(State())) && (State(), [p]) == Take(old(State()), Rooms())
    {
      hide DataBuffer.Valid, DataBuffer.Contents;
      var Filling(i, msg, offset) := progress;
      var payload := if i.payloadSize == 0 then [] else memory[i.chid][..i.payloadSize];
      p := Packet(i.chid, i.pcode, i.toReceive, msg, payload);
      progress := Nothing;
    }

    method CanAdvance() returns (b: bool)
      requires Valid()
      ensures b == Advances(State())
    {
      var n := input.DataLen();
      b := !stopped &&
           match progress
           case Nothing => n >= DIRECT_INFO_LEN
           case Announced(i) => n >= i.msgSize
           case Filling(i, _, offset) => i.payloadSize == 0 || offset >= i.payloadSize || n >= 1;
    }

    /** One turn of processData and readPayload, when it can make progress. */
    method ProcessData() returns (os: seq<Packet>)
      requires Valid() && Advances(State())
      modifies this, input, input.buf, memory.Values
      ensures Valid() && (input.buf == old(input.buf) || fresh(input.buf))
      ensures (State(), os) == Take(old(State()), Rooms())
    {
      hide Take, DataBuffer.Valid, DataBuffer.Contents;
      os := [];
      match progress
      case Nothing => TakeInfo();
      case Announced(_) => TakeMessage();
      case Filling(i, _, offset) =>
        if i.payloadSize > 0 && offset < i.payloadSize {
          TakePayload();
        } else {
          var p := Deliver();
          os := [p];
        }
    }

    /** Every packet that is complete. */
    method ProcessAll() returns (os: seq<Packet>)
      requires Valid()
      modifies this, input, input.buf, memory.Values
      ensures Valid() && (input.buf == old(input.buf) || fresh(input.buf))
      ensures (State(), os) == Drain(old(State()), Rooms())
    {
      hide Take, Advances, DataBuffer.Valid, DataBuffer.Contents;
      ghost var start, rooms := State(), Rooms();
      os := [];
      assert os + Drain(start, rooms).1 == Drain(start, rooms).1;
      var more := CanAdvance();
      while more
        invariant Valid() && (input.buf == old(input.buf) || fresh(input.buf)) && Rooms() == rooms
        invariant more == Advances(State())
        invariant Drain(start, rooms) == (Drain(State(), rooms).0, os + Drain(State(), rooms).1)
        decreases Measure(State())
      {
        ghost var t := State();
        var o := ProcessData();
        ghost var u := State();
        DrainStep(t, rooms);
        assert (os + o) + Drain(u, rooms).1 == os + (o + Drain(u, rooms).1);
        os := os + o;
        more := CanAdvance();
      }
      assert os + [] == os;
    }

    /** A read into the buffer. */
    method ReadBuffer(room: nat, chunk: seq<Byte>) returns (os: seq<Packet>)
      requires Valid() && |chunk| <= room
      modifies this, input, input.buf, memory.Values
      ensures Valid() && (input.buf == old(input.buf) || fresh(input.buf))
      ensures (State(), os) == Drain(Feed(old(State()), chunk), Rooms())
    {
      hide Drain, DataBuffer.Valid, DataBuffer.Contents;
      input.Receive(room, chunk);
      os := ProcessAll();
    }

    /** A read past the buffer, straight into the memory of the payload that is on its way. It has the
        same effect as the same bytes read through the buffer. */
    method ReadDirect(chunk: seq<Byte>) returns (os: seq<Packet>)
      requires Valid() && !stopped && progress.Filling? && input.Contents() == []
      requires 0 < |chunk| <= progress.info.payloadSize - progress.offset
      modifies this, input, input.buf, memory.Values
      ensures Valid() && (input.buf == old(input.buf) || fresh(input.buf))
      ensures (State(), os) == Drain(Feed(old(State()), chunk), Rooms())
    {
      hide Drain, DataBuffer.Valid, DataBuffer.Contents;
      ghost var s := State();
      var Filling(i, msg, offset) := progress;
      Store(i, msg, offset, chunk);
      ghost var t := State();
      DirectIsBuffered(s, t, chunk, Rooms());
      os := ProcessAll();
    }
  }

  lemma DirectIsBuffered(s: State, t: State, chunk: seq<Byte>, rooms: map<nat, nat>)
    requires s.Open? && s.input == [] && s.stage.NeedPayload?
    requires 0 < |chunk| <= s.stage.info.payloadSize - |s.stage.filled|
    requires t == Open(NeedPayload(s.stage.info, s.stage.msg, s.stage.filled + chunk), [])
    ensures Drain(Feed(s, chunk), rooms) == Drain(t, rooms)
  {
    hide Drain;
    assert [] + chunk == chunk && chunk[..|chunk|] == chunk && chunk[|chunk|..] == [];
    DrainStep(Feed(s, chunk), rooms);
    NothingFirst(Drain(t, rooms).1);
  }

  method ReadDirectInfo(input: DataBuffer) returns (i: Info, good: bool)
    requires input.Valid() && |input.Contents()| >= DIRECT_INFO_LEN
    modifies input`data
    ensures input.Valid() && input.Contents() == old(input.Contents())[DIRECT_INFO_LEN..]
    ensures i == ReadInfo(old(input.Contents())[..DIRECT_INFO_LEN])
    ensures good == GoodInfo(old(input.Contents())[..DIRECT_INFO_LEN])
  {
    hide Value, AnetFrames.GoodInfo, AnetFrames.ReadInfo, DataBuffer.Valid, DataBuffer.Contents;
    ghost var was := input.Contents();
    var h, ok := AnetStreamer.ReadPacketInfo(input);
    assert input.Contents() == was[16..] && was[..DIRECT_INFO_LEN][..16] == was[..16];
    var flag, ver := ReadTwo(input);
    assert input.Contents() == was[24..];
    var high, low := ReadTwo(input);
    assert input.Contents() == was[32..];
    var msgSize, payloadSize := ReadTwo(input);
    assert input.Contents() == was[40..];
    var toReceive := input.ReadInt32();
    assert input.Contents() == was[44..];
    ghost var s := was[..DIRECT_INFO_LEN];
    assert s[16..20] == was[16..][..4] && s[20..24] == was[16..][4..8];
    assert s[32..36] == was[32..][..4] && s[36..40] == was[32..][4..8] && s[40..44] == was[40..][..4];
    i := Info(h.chid, h.pcode, h.dataLen, msgSize, payloadSize, toReceive);
    good := ok && flag == DIRECT_FLAG && ver == DIRECT_VER;
  }

  method ReadTwo(input: DataBuffer) returns (m: nat, n: nat)
    requires input.Valid() && |input.Contents()| >= 8
    modifies input`data
    ensures input.Valid() && input.Contents() == old(input.Contents())[8..]
    ensures m == Value(old(input.Contents())[..4]) && n == Value(old(input.Contents())[4..8])
  {
    hide Value, DataBuffer.Valid, DataBuffer.Contents;
    ghost var was := input.Contents();
    m := input.ReadInt32();
    n := input.ReadInt32();
    assert was[4..][..4] == was[4..8] && was[4..][4..] == was[8..];
  }
}
