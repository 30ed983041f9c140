/** The resumable HTTP parser as a state machine over the bytes in the buffer. Each step takes a whole
    line, or as much of a body as there is. */
module HttpParser {
  import opened DataBuffers
  import opened HttpText

  const URI_LIMIT: nat := 65536
  const HEADERS_LIMIT: nat := 128

  const TRANSFER_ENCODING: Text := [116, 114, 97, 110, 115, 102, 101, 114, 45, 101, 110, 99, 111, 100, 105, 110, 103]
  const CONTENT_LENGTH: Text := [99, 111, 110, 116, 101, 110, 116, 45, 108, 101, 110, 103, 116, 104]
  const CHUNKED: Text := [99, 104, 117, 110, 107, 101, 100]

  datatype Version = V10 | V11

  datatype Start =
    | Request(method_: Text, uri: Option<Text>, version: Version)
    | Response(version: Version, status: nat, reason: Option<Text>)

  /** A header as it was spelled last. */
  datatype Field = Field(key: Text, value: Text)

  /** Headers are found under their lower-case names. */
  datatype Message = Message(start: Start, headers: map<Text, Field>, body: Text)

  // ----- Lines -------------------------------------------------------------------------------------

  function ParseVersion(s: Text): Option<Version> {
    if CString(s) == HTTP_10 then Some(V10) else if CString(s) == HTTP_11 then Some(V11) else None
  }

  function ParseStart(line: Text): Option<Start> {
    if |line| >= 5 && line[..5] == HTTP_11[..5] then ParseStatus(line) else ParseRequest(line)
  }

  function ParseRequest(line: Text): Option<Start> {
    var p := FindSpace(line);
    if p == |line| || !(forall i :: 0 <= i < p ==> IsTokenCharacter(line[i])) then None
    else
      var rest := SkipSpaces(line[p + 1..]);
      var q := FindSpace(rest);
      if q == |rest| || q > URI_LIMIT then None
      else
        var v := ParseVersion(SkipSpaces(rest[q + 1..]));
        if v.None? then None
        else Some(Request(line[..p], TrimBlanks(ZeroToSpace(rest[..q])), v.value))
  }

  function ParseStatus(line: Text): Option<Start> {
    var p := FindSpace(line);
    if p == |line| || ParseVersion(line[..p]).None? then None
    else
      var rest := SkipSpaces(line[p + 1..]);
      var q := FindSpace(rest);
      var code := CString(rest[..q]);
      if |rest| == 0 || |code| != 3 || !AllDigits(code) then None
      else
        var n := Decimal(code);
        var status := if 100 <= n < 600 then n else 0;
        var reason := if q == |rest| then [] else CString(SkipSpaces(rest[q + 1..]));
        Some(Response(ParseVersion(line[..p]).value, status, if reason == [] then None else Some(reason)))
  }

  /** A header line; one without a colon is passed over. */
  function AddLine(headers: map<Text, Field>, line: Text): map<Text, Field> {
    var i := Find(line, COLON);
    if i == |line| then headers
    else AddHeader(headers, CString(line[..i]), ZeroToSpace(Trim(line[i + 1..])))
  }

  /** A header replaces one of the same name. */
  function AddHeader(headers: map<Text, Field>, key: Text, value: Text): map<Text, Field> {
    headers[Lower(key) := Field(key, value)]
  }

  function GetHeader(headers: map<Text, Field>, name: Text): Option<Text> {
    if name in headers then Some(headers[name].value) else None
  }

  /** The size of a chunk: hexadecimal digits, then the end of the line or a semicolon. */
  function ChunkSize(line: Text): Option<nat> {
    var s := CString(SkipSpaces(line));
    var i := HexPrefix(s);
    if i == 0 || (i < |s| && s[i] != SEMICOLON) || Hex(s[..i]) >= 0x8000_0000 then None else Some(Hex(s[..i]))
  }

  // ----- The machine -------------------------------------------------------------------------------

  datatype Stage =
    | StartLine
    | Headers(msg: Message)
    | LengthBody(msg: Message, left: nat)
    | EofBody(msg: Message)
    | SizeLine(msg: Message)
    | ChunkData(msg: Message, left: nat)
    | ChunkEnd(msg: Message)
    | Trailers(msg: Message)

  /** drained counts the bytes of the current message that have been consumed, count its headers.
      Stopped: the stream is broken. */
  datatype State = Open(stage: Stage, input: Text, drained: nat, count: nat) | Stopped

  datatype Result = Result(state: State, out: seq<Message>)

  predicate NeedsLine(stage: Stage) {
    stage.StartLine? || stage.Headers? || stage.SizeLine? || stage.Trailers?
  }

  /** Whether a step can be made with what is in the buffer. */
  predicate Advances(s: State, limit: nat) {
    s.Open? &&
    if NeedsLine(s.stage) then TakeLine(s.input).Some? || |s.input| + s.drained > limit
    else if s.stage.LengthBody? || s.stage.ChunkData? then |s.input| > 0 || s.stage.left == 0
    else |s.input| > 0
  }

  function Take(s: State, limit: nat): (r: Result)
    requires Advances(s, limit)
    ensures Measure(r.state) < Measure(s)
  {
    if s.stage.LengthBody? || s.stage.ChunkData? then TakeBody(s)
    else if s.stage.EofBody? then
      var msg := s.stage.msg;
      Result(Open(EofBody(msg.(body := msg.body + s.input)), [], s.drained, s.count), [])
    else if s.stage.ChunkEnd? then TakeChunkEnd(s)
    else if TakeLine(s.input).None? then Result(Stopped, [])
    else
      var line := TakeLine(s.input).value;
      if s.drained + line.length > limit then Result(Stopped, []) else TakeText(s, line, limit)
  }

  function TakeText(s: State, line: Line, limit: nat): (r: Result)
    requires s.Open? && NeedsLine(s.stage) && 0 < line.length <= |s.input|
    ensures Measure(r.state) < Measure(s)
  {
    var rest, drained := s.input[line.length..], s.drained + line.length;
    if s.stage.StartLine? then
      var start := ParseStart(line.text);
      if start.None? then Result(Stopped, [])
      else Result(Open(Headers(Message(start.value, map[], [])), rest, drained, s.count), [])
    else if s.stage.SizeLine? then
      var msg, size := s.stage.msg, ChunkSize(line.text);
      if size.None? then Result(Stopped, [])
      else if size.value == 0 then Result(Open(Trailers(msg), rest, drained, s.count), [])
      else if drained + size.value > limit then Result(Stopped, [])
      else Result(Open(ChunkData(msg, size.value), rest, drained, s.count), [])
    else if line.text == [] then
      if s.stage.Headers? then HeadersEnd(s.stage.msg, rest, drained, s.count, limit)
      else Result(Open(StartLine, rest, 0, 0), [s.stage.msg])
    else if s.count + 1 > HEADERS_LIMIT then Result(Stopped, [])
    else
      var more := s.stage.msg.(headers := AddLine(s.stage.msg.headers, line.text));
      Result(Open(if s.stage.Headers? then Headers(more) else Trailers(more), rest, drained, s.count + 1), [])
  }

  /** How the body is delimited, section 3.3.3 of RFC 7230; a message without a body is complete. */
  function HeadersEnd(msg: Message, rest: Text, drained: nat, count: nat, limit: nat): (r: Result)
    ensures r.state.Open? ==> r.state.input == rest
  {
    var encoding, length := GetHeader(msg.headers, TRANSFER_ENCODING), GetHeader(msg.headers, CONTENT_LENGTH);
    if encoding.Some? then
      if encoding.value == CHUNKED then Result(Open(SizeLine(msg), rest, drained, count), []) else Result(Stopped, [])
    else if length.None? then
      if msg.start.Response? then Result(Open(EofBody(msg), rest, drained, count), [])
      else Result(Open(StartLine, rest, 0, 0), [msg])
    else if !AllDigits(length.value) || Decimal(length.value) >= 0x8000_0000 then Result(Stopped, [])
    else if Decimal(length.value) == 0 then Result(Open(StartLine, rest, 0, 0), [msg])
    else if Decimal(length.value) + drained > limit then Result(Stopped, [])
    else Result(Open(LengthBody(msg, Decimal(length.value)), rest, drained, count), [])
  }

  /** processLengthBody: all that is missing, or all there is. */
  function TakeBody(s: State): (r: Result)
    requires s.Open? && (s.stage.LengthBody? || s.stage.ChunkData?) && (|s.input| > 0 || s.stage.left == 0)
    ensures Measure(r.state) < Measure(s)
  {
    var msg, left := s.stage.msg, s.stage.left;
    if |s.input| >= left then
      var whole := msg.(body := msg.body + s.input[..left]);
      if s.stage.LengthBody? then Result(Open(StartLine, s.input[left..], 0, 0), [whole])
      else Result(Open(ChunkEnd(whole), s.input[left..], s.drained + left, s.count), [])
    else Result(Fill(s), [])
  }

  function Fill(s: State): State
    requires s.Open? && (s.stage.LengthBody? || s.stage.ChunkData?) && |s.input| < s.stage.left
  {
    var more, left := s.stage.msg.(body := s.stage.msg.body + s.input), s.stage.left - |s.input|;
    Open(if s.stage.LengthBody? then LengthBody(more, left) else ChunkData(more, left),
         [], s.drained + |s.input|, s.count)
  }

  /** getCRLF: a carriage return that is alone in the buffer is consumed before it is known what
      follows. */
  function TakeChunkEnd(s: State): (r: Result)
    requires s.Open? && s.stage.ChunkEnd? && |s.input| > 0
    ensures Measure(r.state) < Measure(s)
  {
    var msg, a := s.stage.msg, s.input;
    if a[0] == LF then Result(Open(SizeLine(msg), a[1..], s.drained + 1, s.count), [])
    else if a[0] == CR && |a| == 1 then Result(Open(ChunkEnd(msg), [], s.drained + 1, s.count), [])
    else if a[0] == CR && a[1] == LF then Result(Open(SizeLine(msg), a[2..], s.drained + 2, s.count), [])
    else Result(Stopped, [])
  }

  function Measure(s: State): nat {
    if s.Stopped? then 0
    else 3 * |s.input| + if s.stage.LengthBody? || s.stage.ChunkData? then 2 else 1
  }

  /** Everything that can be made of the bytes in the buffer. */
  function Drain(s: State, limit: nat): Result
    decreases Measure(s)
  {
    if !Advances(s, limit) then Result(s, [])
    else
      var r := Take(s, limit);
      var t := Drain(r.state, limit);
      Result(t.state, r.out + t.out)
  }

  function Feed(s: State, chunk: Text): State {
    if s.Stopped? then s else s.(input := s.input + chunk)
  }

  function Receive(s: State, chunks: seq<Text>, limit: nat): Result
    decreases |chunks|
  {
    if |chunks| == 0 then Result(s, [])
    else
      var r := Drain(Feed(s, chunks[0]), limit);
      var t := Receive(r.state, chunks[1..], limit);
      Result(t.state, r.out + t.out)
  }

  lemma NothingFirst(out: seq<Message>)
    ensures [] + out == out
  {
  }

  lemma DrainStep(s: State, limit: nat)
    requires Advances(s, limit)
    ensures var r := Take(s, limit);
            Drain(s, limit) == Result(Drain(r.state, limit).state, r.out + Drain(r.state, limit).out)
  {
  }

  // ----- Limits ------------------------------------------------------------------------------------

  /** A body of known size fits into the limit with what was consumed before it, and the body read so
      far is part of what was consumed. */
  predicate WithinLimit(s: State, limit: nat) {
    s.Open? && !s.stage.EofBody? && !s.stage.StartLine? ==>
      && |s.stage.msg.body| <= s.drained && |s.stage.msg.body| <= limit
      && (s.stage.LengthBody? || s.stage.ChunkData? ==> s.drained + s.stage.left <= limit)
  }

  /** A step keeps the limit and accounts for every byte: what leaves the buffer is added to the
      drained length, until the message is complete. */
  predicate Accounts(s: State, r: Result, limit: nat) {
    && s.Open? && WithinLimit(r.state, limit)
    && (r.state.Open? && r.out == [] ==> r.state.drained + |r.state.input| == s.drained + |s.input|)
    && (forall i :: 0 <= i < |r.out| ==> |r.out[i].body| <= limit)
  }

  lemma StepAccounts(s: State, limit: nat)
    requires Advances(s, limit) && WithinLimit(s, limit) && !s.stage.EofBody?
    ensures Accounts(s, Take(s, limit), limit)
  {
    hide ParseStart, AddLine, ChunkSize, Decimal, GetHeader, TakeLine;
  }

  /** In every state the parser reaches a body of known size stays within the limit, and so does the body
      of every message it delivers. */
  lemma {:induction false} DrainStaysWithinLimit(s: State, limit: nat)
    requires WithinLimit(s, limit)
    ensures var r := Drain(s, limit);
            WithinLimit(r.state, limit) && forall i :: 0 <= i < |r.out| ==> |r.out[i].body| <= limit
    decreases Measure(s)
  {
    hide WithinLimit;
    if Advances(s, limit) {
      if s.stage.EofBody? {
        EofIsWithinLimit(s, limit);
      } else {
        hide Take;
        StepAccounts(s, limit);
      }
      DrainStaysWithinLimit(Take(s, limit).state, limit);
    }
  }

  lemma EofIsWithinLimit(s: State, limit: nat)
    requires Advances(s, limit) && s.stage.EofBody?
    ensures WithinLimit(Take(s, limit).state, limit) && Take(s, limit).out == []
  {
  }

  lemma ReceiveStaysWithinLimit(s: State, chunks: seq<Text>, limit: nat)
    requires WithinLimit(s, limit)
    ensures var r := Receive(s, chunks, limit);
            WithinLimit(r.state, limit) && forall i :: 0 <= i < |r.out| ==> |r.out[i].body| <= limit
    decreases |chunks|
  {
    hide Drain, WithinLimit;
    if |chunks| > 0 {
      FeedStaysWithinLimit(s, chunks[0], limit);
      DrainStaysWithinLimit(Feed(s, chunks[0]), limit);
      ReceiveStaysWithinLimit(Drain(Feed(s, chunks[0]), limit).state, chunks[1..], limit);
    }
  }

  lemma FeedStaysWithinLimit(s: State, chunk: Text, limit: nat)
    requires WithinLimit(s, limit)
    ensures WithinLimit(Feed(s, chunk), limit)
  {
  }
}
