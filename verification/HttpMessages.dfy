/** Printing HTTP messages, and reading them back: parsing undoes printing, for any number of messages
    and however the bytes are cut. */
module HttpMessages {
  import opened DataBuffers
  import opened HttpText
  import opened HttpParser
  import opened HttpFragments

  const CONTENT_LENGTH_NAME: Text := [67, 111, 110, 116, 101, 110, 116, 45, 76, 101, 110, 103, 116, 104]
  const OK_TEXT: Text := [79, 75]
  const NOT_FOUND_TEXT: Text := [78, 79, 84, 32, 70, 79, 85, 78, 68]
  const UNKNOWN_TEXT: Text := [85, 78, 75, 78, 79, 87, 78]

  /** A packet to send; its headers in the order in which the header map lists them. */
  datatype Packet = Packet(start: Start, headers: seq<Field>, body: Text)

  function VersionText(v: Version): (s: Text)
    ensures |s| == 8
  {
    if v == V10 then HTTP_10 else HTTP_11
  }

  /** getReasonPhrase: what was set, or a phrase for the status. */
  function ReasonText(status: nat, reason: Option<Text>): Text {
    if reason.Some? then reason.value
    else if status == 200 then OK_TEXT else if status == 404 then NOT_FOUND_TEXT else UNKNOWN_TEXT
  }

  /** Printing refuses a request without a target; there is nothing to print for it here. */
  function StartText(s: Start): Text {
    match s
    case Request(m, uri, v) => m + [SP] + (if uri.Some? then uri.value else []) + [SP] + VersionText(v)
    case Response(v, status, reason) => VersionText(v) + [SP] + Digits(status) + [SP] + ReasonText(status, reason)
  }

  function FieldText(f: Field): Text {
    f.key + [COLON, SP] + f.value
  }

  function FieldLines(fs: seq<Field>): Text {
    if |fs| == 0 then [] else FieldText(fs[0]) + CRLF + FieldLines(fs[1..])
  }

  /** Whether a header of the given lower-case name is there. */
  predicate HasName(fs: seq<Field>, name: Text) {
    exists i :: 0 <= i < |fs| && Lower(fs[i].key) == name
  }

  /** The headers as printed: the length of the body is added unless it is there. */
  ghost function Fields(p: Packet): seq<Field> {
    if HasName(p.headers, CONTENT_LENGTH) then p.headers
    else p.headers + [Field(CONTENT_LENGTH_NAME, Digits(|p.body|))]
  }

  ghost function Encode(p: Packet): Text {
    StartText(p.start) + CRLF + FieldLines(Fields(p)) + CRLF + p.body
  }

  // ----- Well-formed messages ----------------------------------------------------------------------

  predicate NoneOf(s: Text, bs: seq<Byte>) {
    forall i :: 0 <= i < |s| ==> s[i] !in bs
  }

  predicate GoodStart(s: Start) {
    match s
    case Request(m, uri, _) =>
      && (forall i :: 0 <= i < |m| ==> IsTokenCharacter(m[i]))
      && uri.Some? && 0 < |uri.value| <= URI_LIMIT && NoneOf(uri.value, [SP, TAB, LF, 0])
    case Response(_, status, reason) =>
      100 <= status < 600 && (reason.Some? ==> GoodReason(reason.value))
  }

  predicate GoodField(f: Field) {
    NoneOf(f.key, [COLON, LF, 0]) && NoneOf(f.value, [LF, 0]) && Trimmed(f.value)
  }

  predicate DistinctNames(fs: seq<Field>) {
    forall i, j :: 0 <= i < j < |fs| ==> Lower(fs[i].key) != Lower(fs[j].key)
  }

  /** A message of known length within the limits of the parser. */
  ghost predicate Good(p: Packet, limit: nat) {
    && GoodStart(p.start) && |Fields(p)| <= HEADERS_LIMIT && DistinctNames(p.headers)
    && (forall i :: 0 <= i < |p.headers| ==> GoodField(p.headers[i]) && Lower(p.headers[i].key) != TRANSFER_ENCODING)
    && (forall i :: 0 <= i < |p.headers| && Lower(p.headers[i].key) == CONTENT_LENGTH ==>
          p.headers[i].value == Digits(|p.body|))
    && |p.body| < 0x8000_0000 && |Encode(p)| <= limit
  }

  ghost function HeaderMap(headers: map<Text, Field>, fs: seq<Field>): map<Text, Field>
    decreases |fs|
  {
    if |fs| == 0 then headers else HeaderMap(AddHeader(headers, fs[0].key, fs[0].value), fs[1..])
  }

  function DeliveredStart(s: Start): Start {
    if s.Request? then s else s.(reason := Some(ReasonText(s.status, s.reason)))
  }

  /** What the reader makes of a packet. */
  ghost function Delivered(p: Packet): Message {
    Message(DeliveredStart(p.start), HeaderMap(map[], Fields(p)), p.body)
  }

  // ----- The start line ----------------------------------------------------------------------------

  lemma CStringOf(s: Text)
    requires 0 !in s
    ensures CString(s) == s
  {
    FindIsUnique(s, 0, |s|);
  }

  lemma VersionRoundTrip(v: Version)
    ensures ParseVersion(VersionText(v)) == Some(v)
  {
    CStringOf(VersionText(v));
  }

  lemma NoBlanks(u: Text)
    requires |u| > 0 && NoneOf(u, [SP, TAB, LF, 0])
    ensures TrimBlanks(ZeroToSpace(u)) == Some(u)
  {
    assert ZeroToSpace(u) == u;
  }

  /** The first blank ends the first word. */
  lemma FirstWord(a: Text, rest: Text)
    requires forall i :: 0 <= i < |a| ==> !IsSpace(a[i])
    ensures var s := a + [SP] + rest;
            |s| == |a| + 1 + |rest| && FindSpace(s) == |a| && s[..|a|] == a && s[|a| + 1..] == rest && s[|a|] == SP
  {
    FindSpaceIsUnique(a + [SP] + rest, |a|);
  }

  lemma RequestRoundTrip(m: Text, u: Text, v: Version)
    requires GoodStart(Request(m, Some(u), v))
    ensures ParseStart(StartText(Request(m, Some(u), v))) == Some(Request(m, Some(u), v))
  {
    hide ParseRequest, IsSpace, IsTokenCharacter;
    var rest := u + [SP] + VersionText(v);
    var line := m + [SP] + rest;
    assert StartText(Request(m, Some(u), v)) == line;
    Words(m, u);
    FirstWord(m, rest);
    SlashIsNoToken(line, m);
    ParseWords(m, u, v, rest, line);
  }

  lemma ParseWords(m: Text, u: Text, v: Version, rest: Text, line: Text)
    requires GoodStart(Request(m, Some(u), v)) && rest == u + [SP] + VersionText(v)
    requires FindSpace(line) == |m| < |line| && line[..|m|] == m && line[|m| + 1..] == rest
    ensures ParseRequest(line) == Some(Request(m, Some(u), v))
  {
    hide TrimBlanks, ParseVersion, FindSpace, SkipSpaces, VersionText, ZeroToSpace, IsSpace, IsTokenCharacter;
    Words(m, u);
    VersionIsWord(v);
    FirstWord(u, VersionText(v));
    FirstStays(rest);
    FirstStays(VersionText(v));
    VersionRoundTrip(v);
    NoBlanks(u);
    assert forall i :: 0 <= i < |m| ==> line[i] == line[..|m|][i];
  }

  lemma Words(m: Text, u: Text)
    requires GoodStart(Request(m, Some(u), V10))
    ensures (forall i :: 0 <= i < |m| ==> !IsSpace(m[i])) && (forall i :: 0 <= i < |u| ==> !IsSpace(u[i]))
    ensures LF !in m && LF !in u
  {
  }

  lemma FirstStays(s: Text)
    requires |s| > 0 && !IsSpace(s[0])
    ensures SkipSpaces(s) == s
  {
  }

  /** A request line never looks like a status line. */
  lemma SlashIsNoToken(line: Text, m: Text)
    requires |m| < |line| && line[..|m|] == m && line[|m|] == SP && forall i :: 0 <= i < |m| ==> IsTokenCharacter(m[i])
    ensures |line| >= 5 ==> line[..5] != HTTP_11[..5]
  {
    if |line| >= 5 {
      if |m| > 4 {
        assert line[..5][4] == line[..|m|][4];
      } else {
        assert line[..5][|m|] == SP;
      }
      assert forall i :: 0 <= i < 5 ==> HTTP_11[..5][i] != SP;
      assert HTTP_11[..5][4] == 47;
    }
  }

  lemma StatusDigits(status: nat)
    requires 100 <= status < 600
    ensures |Digits(status)| == 3 && Decimal(Digits(status)) == status && CString(Digits(status)) == Digits(status)
  {
    assert Digits(status) == Digits(status / 10) + [48 + status % 10];
    assert Digits(status / 10) == Digits(status / 10 / 10) + [48 + status / 10 % 10];
    DecimalOfDigits(status);
    CStringOf(Digits(status));
  }

  predicate GoodReason(s: Text) {
    |s| > 0 && !IsSpace(s[0]) && forall i :: 0 <= i < |s| ==> s[i] != LF && s[i] != 0
  }

  lemma PhrasesAreGood()
    ensures GoodReason(OK_TEXT) && GoodReason(NOT_FOUND_TEXT) && GoodReason(UNKNOWN_TEXT)
  {
  }

  lemma ReasonIsGood(status: nat, reason: Option<Text>)
    requires GoodStart(Response(V10, status, reason))
    ensures var text := ReasonText(status, reason);
            |text| > 0 && !IsSpace(text[0]) && LF !in text && CString(text) == text
  {
    hide CString;
    PhrasesAreGood();
    CStringOf(ReasonText(status, reason));
  }

  lemma ResponseRoundTrip(v: Version, status: nat, reason: Option<Text>)
    requires GoodStart(Response(v, status, reason))
    ensures ParseStart(StartText(Response(v, status, reason))) == Some(DeliveredStart(Response(v, status, reason)))
  {
    hide ParseVersion, Digits, Decimal, CString, FindSpace, ReasonText, VersionText;
    var text, code := ReasonText(status, reason), Digits(status);
    var rest := code + [SP] + text;
    var line := VersionText(v) + [SP] + rest;
    assert StartText(Response(v, status, reason)) == line;
    ReasonIsGood(status, reason);
    StatusDigits(status);
    VersionIsWord(v);
    FirstWord(VersionText(v), rest);
    FirstWord(code, text);
    assert line[..5] == VersionText(v)[..5];
    VersionRoundTrip(v);
    FirstStays(rest);
    FirstStays(text);
  }

  lemma VersionIsWord(v: Version)
    ensures VersionText(v)[..5] == HTTP_11[..5] && (forall i :: 0 <= i < 8 ==> !IsSpace(VersionText(v)[i]))
    ensures LF !in VersionText(v)
  {
  }

  lemma StartRoundTrip(s: Start)
    requires GoodStart(s)
    ensures LF !in StartText(s) && ParseStart(StartText(s)) == Some(DeliveredStart(s))
  {
    hide ParseStart, ReasonText, Digits, VersionText;
    match s
    case Request(m, uri, v) =>
      VersionIsWord(v);
      RequestRoundTrip(m, uri.value, v);
      Words(m, uri.value);
    case Response(v, status, reason) =>
      VersionIsWord(v);
      ReasonIsGood(status, reason);
      ResponseRoundTrip(v, status, reason);
      assert LF !in Digits(status);
  }

  // ----- Headers -----------------------------------------------------------------------------------

  lemma TrimWritten(value: Text)
    requires Trimmed(value)
    ensures Trim([SP] + value) == value
  {
    var s := [SP] + value;
    assert s[1..] == value;
    assert SkipSpaces(s) == SkipSpaces(value) == value;
  }

  lemma FieldRoundTrip(headers: map<Text, Field>, f: Field)
    requires GoodField(f)
    ensures AddLine(headers, FieldText(f)) == AddHeader(headers, f.key, f.value)
    ensures LF !in FieldText(f) && FieldText(f) != []
  {
    hide Trim;
    var line, n := FieldText(f), |f.key|;
    assert line[n] == COLON && line[..n] == f.key && line[n + 1..] == [SP] + f.value;
    FindIsUnique(line, COLON, n);
    CStringOf(f.key);
    TrimWritten(f.value);
    assert ZeroToSpace(f.value) == f.value;
  }

  /** Reading headers, or trailers behind the last chunk. */
  function ReadsFields(trailers: bool, msg: Message): Stage {
    if trailers then Trailers(msg) else Headers(msg)
  }

  lemma {:induction false} FieldsRoundTrip(trailers: bool, msg: Message, fs: seq<Field>, rest: Text,
      drained: nat, count: nat, limit: nat)
    requires forall i :: 0 <= i < |fs| ==> GoodField(fs[i])
    requires drained + |FieldLines(fs)| <= limit && count + |fs| <= HEADERS_LIMIT
    ensures SameFrom(Open(ReadsFields(trailers, msg), FieldLines(fs) + rest, drained, count),
                     Open(ReadsFields(trailers, msg.(headers := HeaderMap(msg.headers, fs))), rest,
                          drained + |FieldLines(fs)|, count + |fs|), limit)
    decreases |fs|
  {
    hide Drain, CutShows, AddLine, FieldText, GoodField, AddHeader;
    if |fs| == 0 {
      assert FieldLines(fs) + rest == rest;
    } else {
      var more := FieldLines(fs[1..]) + rest;
      var next := msg.(headers := AddHeader(msg.headers, fs[0].key, fs[0].value));
      assert FieldLines(fs) + rest == FieldText(fs[0]) + CRLF + more;
      FieldIsTaken(trailers, msg, fs[0], more, drained, count, limit);
      FieldsRoundTrip(trailers, next, fs[1..], rest, drained + |FieldText(fs[0])| + 2, count + 1, limit);
    }
  }

  lemma FieldIsTaken(trailers: bool, msg: Message, f: Field, rest: Text, drained: nat, count: nat, limit: nat)
    requires GoodField(f) && drained + |FieldText(f)| + 2 <= limit && count < HEADERS_LIMIT
    ensures SameFrom(Open(ReadsFields(trailers, msg), FieldText(f) + CRLF + rest, drained, count),
                     Open(ReadsFields(trailers, msg.(headers := AddHeader(msg.headers, f.key, f.value))), rest,
                          drained + |FieldText(f)| + 2, count + 1), limit)
  {
    hide Drain, CutShows, AddLine, FieldText, GoodField, AddHeader, TakeLine;
    var s := Open(ReadsFields(trailers, msg), FieldText(f) + CRLF + rest, drained, count);
    FieldRoundTrip(msg.headers, f);
    TakeWrittenLine(FieldText(f), rest);
    assert s.input[|FieldText(f)| + 2..] == rest;
    SilentStep(s, limit);
  }

  // ----- The header map ----------------------------------------------------------------------------

  lemma {:induction false} HeaderMapOther(headers: map<Text, Field>, fs: seq<Field>, name: Text)
    requires !HasName(fs, name)
    ensures name in HeaderMap(headers, fs) <==> name in headers
    ensures name in headers ==> HeaderMap(headers, fs)[name] == headers[name]
    decreases |fs|
  {
    hide Lower;
    if |fs| > 0 {
      assert forall i :: 0 <= i < |fs[1..]| ==> fs[1..][i] == fs[i + 1];
      assert Lower(fs[0].key) != name;
      HeaderMapOther(AddHeader(headers, fs[0].key, fs[0].value), fs[1..], name);
    }
  }

  /** Every printed header is found under its name, whatever its case. */
  lemma {:induction false} HeaderMapHas(headers: map<Text, Field>, fs: seq<Field>, i: nat)
    requires DistinctNames(fs) && i < |fs|
    ensures Lower(fs[i].key) in HeaderMap(headers, fs) && HeaderMap(headers, fs)[Lower(fs[i].key)] == fs[i]
    decreases |fs|
  {
    hide Lower;
    var more := AddHeader(headers, fs[0].key, fs[0].value);
    assert forall k :: 0 <= k < |fs[1..]| ==> fs[1..][k] == fs[k + 1];
    if i == 0 {
      HeaderMapOther(more, fs[1..], Lower(fs[0].key));
    } else {
      HeaderMapHas(more, fs[1..], i - 1);
    }
  }

  lemma LengthName()
    ensures Lower(CONTENT_LENGTH_NAME) == CONTENT_LENGTH && CONTENT_LENGTH != TRANSFER_ENCODING
    ensures forall n :: GoodField(Field(CONTENT_LENGTH_NAME, Digits(n)))
  {
    forall n: nat ensures GoodField(Field(CONTENT_LENGTH_NAME, Digits(n))) {
      assert AllDigits(Digits(n));
    }
  }

  /** The printed headers, with the length of the body among them and no other encoding. */
  lemma FieldsAreGood(p: Packet, limit: nat)
    requires Good(p, limit)
    ensures var fs := Fields(p);
            && DistinctNames(fs) && (forall i :: 0 <= i < |fs| ==> GoodField(fs[i])) && !HasName(fs, TRANSFER_ENCODING)
    ensures exists i ::
              0 <= i < |Fields(p)| && Lower(Fields(p)[i].key) == CONTENT_LENGTH && Fields(p)[i].value == Digits(|p.body|)
  {
    hide Lower, Encode, GoodStart, Digits, GoodField;
    LengthName();
    var fs := Fields(p);
    if HasName(p.headers, CONTENT_LENGTH) {
      var i :| 0 <= i < |p.headers| && Lower(p.headers[i].key) == CONTENT_LENGTH;
      assert fs[i].value == Digits(|p.body|);
    } else {
      var n := |p.headers|;
      assert fs[n] == Field(CONTENT_LENGTH_NAME, Digits(|p.body|));
    }
  }

  lemma LengthIsKnown(p: Packet, limit: nat)
    requires Good(p, limit)
    ensures var h := HeaderMap(map[], Fields(p));
            GetHeader(h, TRANSFER_ENCODING) == None && GetHeader(h, CONTENT_LENGTH) == Some(Digits(|p.body|))
  {
    hide Good, Lower, Digits, Fields, GoodField;
    FieldsAreGood(p, limit);
    var fs := Fields(p);
    var i :| 0 <= i < |fs| && Lower(fs[i].key) == CONTENT_LENGTH && fs[i].value == Digits(|p.body|);
    HeaderMapHas(map[], fs, i);
    HeaderMapOther(map[], fs, TRANSFER_ENCODING);
  }

  // ----- Whole messages ----------------------------------------------------------------------------

  lemma StartIsTaken(s: Start, rest: Text, limit: nat)
    requires GoodStart(s) && |StartText(s)| + 2 <= limit
    ensures SameFrom(Open(StartLine, StartText(s) + CRLF + rest, 0, 0),
                     Open(Headers(Message(DeliveredStart(s), map[], [])), rest, |StartText(s)| + 2, 0), limit)
  {
    hide Drain, CutShows, StartText, TakeLine, ParseStart;
    StartRoundTrip(s);
    var t := Open(StartLine, StartText(s) + CRLF + rest, 0, 0);
    TakeWrittenLine(StartText(s), rest);
    assert t.input[|StartText(s)| + 2..] == rest;
    SilentStep(t, limit);
  }

  /** The empty line after the headers, and the body. */
  lemma BodyIsTaken(msg: Message, body: Text, rest: Text, drained: nat, count: nat, limit: nat)
    requires msg.body == [] && drained + 2 + |body| <= limit && |body| < 0x8000_0000
    requires GetHeader(msg.headers, TRANSFER_ENCODING) == None
    requires GetHeader(msg.headers, CONTENT_LENGTH) == Some(Digits(|body|))
    ensures var r := Drain(Open(StartLine, rest, 0, 0), limit);
            Drain(Open(Headers(msg), CRLF + body + rest, drained, count), limit) ==
            Result(r.state, [msg.(body := body)] + r.out)
  {
    hide Drain, TakeLine, Digits, Decimal, GetHeader;
    var s := Open(Headers(msg), CRLF + body + rest, drained, count);
    assert s.input == [] + CRLF + (body + rest) && s.input[2..] == body + rest;
    TakeWrittenLine([], body + rest);
    DecimalOfDigits(|body|);
    DrainStep(s, limit);
    if |body| == 0 {
      assert body + rest == rest;
      assert msg.(body := body) == msg;
    } else {
      LengthIsTaken(msg, body, rest, drained + 2, count, limit);
      NothingFirst(Drain(Open(LengthBody(msg, |body|), body + rest, drained + 2, count), limit).out);
    }
  }

  lemma LengthIsTaken(msg: Message, body: Text, rest: Text, drained: nat, count: nat, limit: nat)
    requires msg.body == [] && |body| > 0
    ensures var r := Drain(Open(StartLine, rest, 0, 0), limit);
            Drain(Open(LengthBody(msg, |body|), body + rest, drained, count), limit) ==
            Result(r.state, [msg.(body := body)] + r.out)
  {
    hide Drain;
    var t := Open(LengthBody(msg, |body|), body + rest, drained, count);
    assert t.input[..|body|] == body && t.input[|body|..] == rest && [] + body == body;
    DrainStep(t, limit);
  }

  /** A message in front of the buffer is taken whole, and what follows it is left alone. */
  lemma MessageIsTaken(p: Packet, rest: Text, limit: nat)
    requires Good(p, limit)
    ensures var r := Drain(Open(StartLine, rest, 0, 0), limit);
            Drain(Open(StartLine, Encode(p) + rest, 0, 0), limit) == Result(r.state, [Delivered(p)] + r.out)
  {
    hide Drain, CutShows, StartText, FieldLines, HeaderMap, GetHeader, GoodStart, DistinctNames, Lower, HasName,
         Fields, GoodField;
    var fs := Fields(p);
    FieldsAreGood(p, limit);
    LengthIsKnown(p, limit);
    var start, lines, body := StartText(p.start), FieldLines(fs), CRLF + p.body + rest;
    assert Encode(p) + rest == start + CRLF + (lines + body);
    assert |Encode(p)| == |start| + 2 + |lines| + 2 + |p.body|;
    StartIsTaken(p.start, lines + body, limit);
    var msg := Message(DeliveredStart(p.start), map[], []);
    FieldsRoundTrip(false, msg, fs, body, |start| + 2, 0, limit);
    BodyIsTaken(msg.(headers := HeaderMap(map[], fs)), p.body, rest, |start| + 2 + |lines|, |fs|, limit);
  }

  ghost function Messages(ps: seq<Packet>, limit: nat): Text
    requires forall i :: 0 <= i < |ps| ==> Good(ps[i], limit)
  {
    if |ps| == 0 then [] else Encode(ps[0]) + Messages(ps[1..], limit)
  }

  ghost function Deliveries(ps: seq<Packet>): (r: seq<Message>)
    ensures |r| == |ps| && forall i :: 0 <= i < |ps| ==> r[i] == Delivered(ps[i])
  {
    if |ps| == 0 then [] else [Delivered(ps[0])] + Deliveries(ps[1..])
  }

  lemma {:induction false} MessagesAreTaken(ps: seq<Packet>, rest: Text, limit: nat)
    requires forall i :: 0 <= i < |ps| ==> Good(ps[i], limit)
    ensures var r := Drain(Open(StartLine, rest, 0, 0), limit);
            Drain(Open(StartLine, Messages(ps, limit) + rest, 0, 0), limit) == Result(r.state, Deliveries(ps) + r.out)
    decreases |ps|
  {
    hide Drain, Encode, Good, Delivered;
    var r := Drain(Open(StartLine, rest, 0, 0), limit);
    if |ps| == 0 {
      assert Messages(ps, limit) + rest == rest && Deliveries(ps) + r.out == r.out;
    } else {
      var more := Messages(ps[1..], limit) + rest;
      MessagesAreTaken(ps[1..], rest, limit);
      MessageIsTaken(ps[0], more, limit);
      assert Messages(ps, limit) + rest == Encode(ps[0]) + more;
      assert [Delivered(ps[0])] + (Deliveries(ps[1..]) + r.out) == Deliveries(ps) + r.out;
    }
  }

  /** Any good messages, printed one behind the other, cut into any pieces and parsed, come out with
      the same start lines, headers and bodies, and leave nothing behind. */
  lemma MessagesRoundTrip(ps: seq<Packet>, chunks: seq<Text>, limit: nat)
    requires (forall i :: 0 <= i < |ps| ==> Good(ps[i], limit)) && Concat(chunks) == Messages(ps, limit)
    ensures Receive(Open(StartLine, [], 0, 0), chunks, limit) == Result(Open(StartLine, [], 0, 0), Deliveries(ps))
  {
    hide Messages, Good, Drain, Deliveries, Receive, Concat, Delivered;
    var s := Open(StartLine, [], 0, 0);
    DrainWaits(s, limit);
    MessagesAreTaken(ps, [], limit);
    assert [] + Messages(ps, limit) == Messages(ps, limit) && Messages(ps, limit) + [] == Messages(ps, limit);
    assert Deliveries(ps) + [] == Deliveries(ps);
    FragmentationDoesNotMatter(s, chunks, limit);
  }

  // ----- Chunked bodies ----------------------------------------------------------------------------

  function ChunkText(c: Text): Text {
    HexDigits(|c|) + CRLF + c + CRLF
  }

  /** Chunks of any sizes but zero, the last chunk, and trailers. */
  function Chunked(cs: seq<Text>, ts: seq<Field>): Text {
    if |cs| == 0 then HexDigits(0) + CRLF + FieldLines(ts) + CRLF else ChunkText(cs[0]) + Chunked(cs[1..], ts)
  }

  predicate GoodChunks(cs: seq<Text>, ts: seq<Field>, count: nat) {
    && (forall i :: 0 <= i < |cs| ==> 0 < |cs[i]| < 0x8000_0000)
    && (forall i :: 0 <= i < |ts| ==> GoodField(ts[i])) && count + |ts| <= HEADERS_LIMIT
  }

  /** The message that chunks and trailers complete. */
  ghost function Completed(msg: Message, cs: seq<Text>, ts: seq<Field>): Message {
    msg.(headers := HeaderMap(msg.headers, ts), body := msg.body + Concat(cs))
  }

  lemma SizeRoundTrip(n: nat)
    requires n < 0x8000_0000
    ensures ChunkSize(HexDigits(n)) == Some(n) && LF !in HexDigits(n)
  {
    var s := HexDigits(n);
    HexOfHexDigits(n);
    FirstStays(s);
    CStringOf(s);
    AllHexIsPrefix(s);
    assert s[..|s|] == s;
  }

  lemma {:induction false} AllHexIsPrefix(s: Text)
    requires AllHex(s)
    ensures HexPrefix(s) == |s|
  {
    if |s| > 0 { AllHexIsPrefix(s[1..]); }
  }

  lemma SizeIsTaken(msg: Message, n: nat, rest: Text, drained: nat, count: nat, limit: nat)
    requires n < 0x8000_0000 && drained + |HexDigits(n)| + 2 + n <= limit
    ensures SameFrom(Open(SizeLine(msg), HexDigits(n) + CRLF + rest, drained, count),
                     Open(if n == 0 then Trailers(msg) else ChunkData(msg, n), rest,
                          drained + |HexDigits(n)| + 2, count), limit)
  {
    hide Drain, CutShows, TakeLine, HexDigits, ChunkSize;
    SizeRoundTrip(n);
    var s := Open(SizeLine(msg), HexDigits(n) + CRLF + rest, drained, count);
    TakeWrittenLine(HexDigits(n), rest);
    assert s.input[|HexDigits(n)| + 2..] == rest;
    SilentStep(s, limit);
  }

  lemma DataIsTaken(msg: Message, c: Text, rest: Text, drained: nat, count: nat, limit: nat)
    requires |c| > 0
    ensures Drain(Open(ChunkData(msg, |c|), c + CRLF + rest, drained, count), limit) ==
            Drain(Open(SizeLine(msg.(body := msg.body + c)), rest, drained + |c| + 2, count), limit)
  {
    hide Drain;
    var s := Open(ChunkData(msg, |c|), c + CRLF + rest, drained, count);
    var t := Open(ChunkEnd(msg.(body := msg.body + c)), CRLF + rest, drained + |c|, count);
    assert s.input[..|c|] == c && s.input[|c|..] == CRLF + rest;
    DrainStep(s, limit);
    NothingFirst(Drain(t, limit).out);
    assert t.input[2..] == rest;
    DrainStep(t, limit);
    NothingFirst(Drain(Take(t, limit).state, limit).out);
  }

  lemma LastIsTaken(msg: Message, rest: Text, drained: nat, count: nat, limit: nat)
    requires drained + 2 <= limit
    ensures var r := Drain(Open(StartLine, rest, 0, 0), limit);
            Drain(Open(Trailers(msg), CRLF + rest, drained, count), limit) == Result(r.state, [msg] + r.out)
  {
    hide Drain, TakeLine;
    var s := Open(Trailers(msg), CRLF + rest, drained, count);
    TakeWrittenLine([], rest);
    assert [] + CRLF + rest == CRLF + rest && s.input[2..] == rest;
    DrainStep(s, limit);
  }

  /** A chunked body decodes to its chunks in order, and the trailers join the headers. */
  lemma {:induction false} ChunkedIsTaken(msg: Message, cs: seq<Text>, ts: seq<Field>, rest: Text,
      drained: nat, count: nat, limit: nat)
    requires GoodChunks(cs, ts, count) && drained + |Chunked(cs, ts)| <= limit
    ensures var r := Drain(Open(StartLine, rest, 0, 0), limit);
            Drain(Open(SizeLine(msg), Chunked(cs, ts) + rest, drained, count), limit) ==
            Result(r.state, [Completed(msg, cs, ts)] + r.out)
    decreases |cs|
  {
    hide Drain, CutShows, HexDigits, FieldLines, GoodField, HeaderMap;
    if |cs| == 0 {
      var more, n := CRLF + rest, drained + |HexDigits(0)| + 2;
      assert Chunked(cs, ts) + rest == HexDigits(0) + CRLF + (FieldLines(ts) + more);
      SizeIsTaken(msg, 0, FieldLines(ts) + more, drained, count, limit);
      FieldsRoundTrip(true, msg, ts, more, n, count, limit);
      var done := msg.(headers := HeaderMap(msg.headers, ts));
      LastIsTaken(done, rest, n + |FieldLines(ts)|, count + |ts|, limit);
      assert msg.body + [] == msg.body;
    } else {
      var c, more := cs[0], Chunked(cs[1..], ts) + rest;
      var n := |HexDigits(|c|)|;
      assert Chunked(cs, ts) + rest == HexDigits(|c|) + CRLF + (c + CRLF + more);
      SizeIsTaken(msg, |c|, c + CRLF + more, drained, count, limit);
      DataIsTaken(msg, c, more, drained + n + 2, count, limit);
      var next := msg.(body := msg.body + c);
      ChunkedIsTaken(next, cs[1..], ts, rest, drained + n + 2 + |c| + 2, count, limit);
      assert msg.body + c + Concat(cs[1..]) == msg.body + (c + Concat(cs[1..]));
    }
  }

  /** A chunked body in any pieces decodes to its chunks in order; section 4.1 of RFC 7230. */
  lemma ChunkedRoundTrip(msg: Message, cs: seq<Text>, ts: seq<Field>, pieces: seq<Text>,
      drained: nat, count: nat, limit: nat)
    requires GoodChunks(cs, ts, count) && drained + |Chunked(cs, ts)| <= limit && Concat(pieces) == Chunked(cs, ts)
    ensures Receive(Open(SizeLine(msg), [], drained, count), pieces, limit) ==
            Result(Open(StartLine, [], 0, 0), [Completed(msg, cs, ts)])
  {
    hide Chunked, Drain, Receive, Concat, Completed;
    var s, text, done := Open(SizeLine(msg), [], drained, count), Chunked(cs, ts), Completed(msg, cs, ts);
    DrainWaits(s, limit);
    ChunkedIsTaken(msg, cs, ts, [], drained, count, limit);
    DrainWaits(Open(StartLine, [], 0, 0), limit);
    assert [] + text == text && text + [] == text && [done] + [] == [done];
    FragmentationDoesNotMatter(s, pieces, limit);
  }
}
