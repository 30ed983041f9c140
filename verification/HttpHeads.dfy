/** What the parser makes of the head of a message: whether there is a body, and how it ends. */
module HttpHeads {
  import opened DataBuffers
  import opened HttpText
  import opened HttpParser
  import opened HttpFragments
  import opened HttpMessages

  const START: State := Open(StartLine, [], 0, 0)

  /** Start line and headers, up to the empty line. */
  function Head(start: Start, fs: seq<Field>): Text {
    StartText(start) + CRLF + FieldLines(fs) + CRLF
  }

  /** Well-formed, with any headers. */
  ghost predicate PrintedHead(start: Start, fs: seq<Field>, limit: nat) {
    && GoodStart(start) && |fs| <= HEADERS_LIMIT && DistinctNames(fs) && |Head(start, fs)| <= limit
    && (forall i :: 0 <= i < |fs| ==> GoodField(fs[i]))
  }

  ghost function HeadMessage(start: Start, fs: seq<Field>): Message {
    Message(DeliveredStart(start), HeaderMap(map[], fs), [])
  }

  /** Reading comes to the empty line with the message begun. */
  lemma HeadersAreRead(start: Start, fs: seq<Field>, rest: Text, limit: nat)
    requires PrintedHead(start, fs, limit)
    ensures |Head(start, fs)| >= 2
    ensures SameFrom(Open(StartLine, Head(start, fs) + rest, 0, 0),
                     Open(Headers(HeadMessage(start, fs)), CRLF + rest, |Head(start, fs)| - 2, |fs|), limit)
  {
    hide Drain, CutShows, StartText, FieldLines, HeaderMap, GoodStart, DistinctNames, GoodField;
    var text, lines := StartText(start), FieldLines(fs);
    assert Head(start, fs) + rest == text + CRLF + (lines + (CRLF + rest));
    StartIsTaken(start, lines + (CRLF + rest), limit);
    var msg := Message(DeliveredStart(start), map[], []);
    FieldsRoundTrip(false, msg, fs, CRLF + rest, |text| + 2, 0, limit);
  }

  lemma EmptyLine(msg: Message, rest: Text, drained: nat, count: nat, limit: nat)
    requires drained + 2 <= limit
    ensures var s := Open(Headers(msg), CRLF + rest, drained, count);
            Advances(s, limit) && !LoneReturn(s) && Take(s, limit) == HeadersEnd(msg, rest, drained + 2, count, limit)
  {
    hide TakeLine, HeadersEnd;
    var s := Open(Headers(msg), CRLF + rest, drained, count);
    TakeWrittenLine([], rest);
    assert [] + CRLF + rest == CRLF + rest && s.input[2..] == rest;
  }

  lemma HeaderOf(start: Start, fs: seq<Field>, i: nat)
    requires DistinctNames(fs) && i < |fs|
    ensures GetHeader(HeadMessage(start, fs).headers, Lower(fs[i].key)) == Some(fs[i].value)
  {
    hide HeaderMap, Lower;
    HeaderMapHas(map[], fs, i);
  }

  lemma NoHeaderOf(start: Start, fs: seq<Field>, name: Text)
    requires !HasName(fs, name)
    ensures GetHeader(HeadMessage(start, fs).headers, name) == None
  {
    hide HeaderMap, Lower, HasName;
    HeaderMapOther(map[], fs, name);
  }

  // ----- No length given ---------------------------------------------------------------------------

  /** Neither header that could announce a body. */
  ghost predicate NoLength(fs: seq<Field>) {
    !HasName(fs, TRANSFER_ENCODING) && !HasName(fs, CONTENT_LENGTH)
  }

  /** A request that announces no body has none: it is delivered, and what follows is read as if first. */
  lemma RequestWithoutBody(start: Start, fs: seq<Field>, rest: Text, limit: nat)
    requires PrintedHead(start, fs, limit) && start.Request? && NoLength(fs)
    ensures var r := Drain(Open(StartLine, rest, 0, 0), limit);
            Drain(Open(StartLine, Head(start, fs) + rest, 0, 0), limit) ==
            Result(r.state, [HeadMessage(start, fs)] + r.out)
  {
    hide Drain, CutShows, PrintedHead, Head, HasName, GetHeader, Take, Advances, LoneReturn;
    HeadersAreRead(start, fs, rest, limit);
    HeadFits(start, fs, limit);
    NoHeaderOf(start, fs, TRANSFER_ENCODING);
    NoHeaderOf(start, fs, CONTENT_LENGTH);
    var msg, n := HeadMessage(start, fs), |Head(start, fs)| - 2;
    EmptyLine(msg, rest, n, |fs|, limit);
    DrainStep(Open(Headers(msg), CRLF + rest, n, |fs|), limit);
  }

  lemma HeadFits(start: Start, fs: seq<Field>, limit: nat)
    requires PrintedHead(start, fs, limit)
    ensures |Head(start, fs)| <= limit
  {
  }

  datatype Plain = Plain(start: Start, fs: seq<Field>)

  ghost predicate GoodRequest(p: Plain, limit: nat) {
    PrintedHead(p.start, p.fs, limit) && p.start.Request? && NoLength(p.fs)
  }

  function Requests(ps: seq<Plain>): Text {
    if |ps| == 0 then [] else Head(ps[0].start, ps[0].fs) + Requests(ps[1..])
  }

  ghost function RequestMessages(ps: seq<Plain>): (r: seq<Message>)
    ensures |r| == |ps| && forall i :: 0 <= i < |ps| ==> r[i] == HeadMessage(ps[i].start, ps[i].fs)
  {
    seq(|ps|, i requires 0 <= i < |ps| => HeadMessage(ps[i].start, ps[i].fs))
  }

  lemma {:induction false} RequestsAreTaken(ps: seq<Plain>, limit: nat)
    requires forall i :: 0 <= i < |ps| ==> GoodRequest(ps[i], limit)
    ensures Drain(Open(StartLine, Requests(ps), 0, 0), limit) == Result(START, RequestMessages(ps))
    decreases |ps|
  {
    hide Drain, GoodRequest, HeadMessage, Head;
    if |ps| == 0 {
      DrainWaits(START, limit);
    } else {
      RequestsAreTaken(ps[1..], limit);
      OneRequest(ps[0], Requests(ps[1..]), limit);
      assert [HeadMessage(ps[0].start, ps[0].fs)] + RequestMessages(ps[1..]) == RequestMessages(ps);
    }
  }

  lemma OneRequest(p: Plain, rest: Text, limit: nat)
    requires GoodRequest(p, limit)
    ensures var r := Drain(Open(StartLine, rest, 0, 0), limit);
            Drain(Open(StartLine, Head(p.start, p.fs) + rest, 0, 0), limit) ==
            Result(r.state, [HeadMessage(p.start, p.fs)] + r.out)
  {
    hide Drain, PrintedHead, Head, HeadMessage, NoLength;
    RequestWithoutBody(p.start, p.fs, rest, limit);
  }

  /** Any number of requests without a body, in any pieces, are delivered, and nothing is left over. */
  lemma RequestsRoundTrip(ps: seq<Plain>, pieces: seq<Text>, limit: nat)
    requires (forall i :: 0 <= i < |ps| ==> GoodRequest(ps[i], limit)) && Concat(pieces) == Requests(ps)
    ensures Receive(START, pieces, limit) == Result(START, RequestMessages(ps))
  {
    hide Drain, Receive, Concat, Requests, RequestMessages, GoodRequest;
    RequestsAreTaken(ps, limit);
    DrainWaits(START, limit);
    assert [] + Concat(pieces) == Concat(pieces);
    FragmentationDoesNotMatter(START, pieces, limit);
  }

  /** A response that announces no length is not delivered: all that follows, in any pieces, is its body. */
  lemma ResponseUntilTheEnd(start: Start, fs: seq<Field>, body: Text, pieces: seq<Text>, limit: nat)
    requires PrintedHead(start, fs, limit) && start.Response? && NoLength(fs)
    requires Concat(pieces) == Head(start, fs) + body
    ensures Receive(START, pieces, limit) ==
            Result(Open(EofBody(HeadMessage(start, fs).(body := body)), [], |Head(start, fs)|, |fs|), [])
  {
    hide Drain, Receive, CutShows, PrintedHead, Head, HasName, GetHeader, Take, Advances, LoneReturn, Concat;
    HeadersAreRead(start, fs, body, limit);
    HeadFits(start, fs, limit);
    NoHeaderOf(start, fs, TRANSFER_ENCODING);
    NoHeaderOf(start, fs, CONTENT_LENGTH);
    var msg, n := HeadMessage(start, fs), |Head(start, fs)| - 2;
    EmptyLine(msg, body, n, |fs|, limit);
    DrainStep(Open(Headers(msg), CRLF + body, n, |fs|), limit);
    BodyIsKept(msg, body, n + 2, |fs|, limit);
    StartWaits(limit);
    assert [] + Concat(pieces) == Concat(pieces);
    FragmentationDoesNotMatter(START, pieces, limit);
  }

  lemma StartWaits(limit: nat)
    ensures Drain(START, limit) == Result(START, [])
  {
    DrainWaits(START, limit);
  }

  lemma BodyIsKept(msg: Message, body: Text, drained: nat, count: nat, limit: nat)
    requires msg.body == []
    ensures Drain(Open(EofBody(msg), body, drained, count), limit) ==
            Result(Open(EofBody(msg.(body := body)), [], drained, count), [])
  {
    hide Drain;
    var s, t := Open(EofBody(msg), body, drained, count), Open(EofBody(msg.(body := body)), [], drained, count);
    DrainWaits(t, limit);
    if |body| == 0 {
      assert s == t;
    } else {
      assert [] + body == body;
      DrainStep(s, limit);
    }
  }

  // ----- Heads that are refused --------------------------------------------------------------------

  /** A transfer coding other than chunked, or, with no transfer coding, a length that is no number of
      fewer than 2^31, or too large for the limit. */
  ghost predicate Refused(start: Start, fs: seq<Field>, limit: nat) {
    exists i :: 0 <= i < |fs| &&
      if Lower(fs[i].key) == TRANSFER_ENCODING then fs[i].value != CHUNKED
      else Lower(fs[i].key) == CONTENT_LENGTH && !HasName(fs, TRANSFER_ENCODING) &&
           BadLength(fs[i].value, |Head(start, fs)|, limit)
  }

  predicate BadLength(value: Text, head: nat, limit: nat) {
    !AllDigits(value) || Decimal(value) >= 0x8000_0000 || (Decimal(value) > 0 && Decimal(value) + head > limit)
  }

  lemma RefusedAtTheEmptyLine(start: Start, fs: seq<Field>, rest: Text, drained: nat, count: nat, limit: nat)
    requires DistinctNames(fs)
    ensures HeadersEnd(HeadMessage(start, fs), rest, |Head(start, fs)|, count, limit).state.Stopped? <==>
            Refused(start, fs, limit)
    ensures Refused(start, fs, limit) ==>
              HeadersEnd(HeadMessage(start, fs), rest, |Head(start, fs)|, count, limit) == Result(Stopped, [])
  {
    hide GetHeader, Head, HeadMessage, Decimal, AllDigits;
    if HasName(fs, TRANSFER_ENCODING) {
      var i :| 0 <= i < |fs| && Lower(fs[i].key) == TRANSFER_ENCODING;
      HeaderOf(start, fs, i);
    } else {
      NoHeaderOf(start, fs, TRANSFER_ENCODING);
      if HasName(fs, CONTENT_LENGTH) {
        var i :| 0 <= i < |fs| && Lower(fs[i].key) == CONTENT_LENGTH;
        HeaderOf(start, fs, i);
      } else {
        NoHeaderOf(start, fs, CONTENT_LENGTH);
      }
    }
  }

  /** A head of that kind breaks the stream, in any pieces, whatever follows; no other printed head does. */
  lemma HeadsAreRefusedExactly(start: Start, fs: seq<Field>, rest: Text, pieces: seq<Text>, limit: nat)
    requires PrintedHead(start, fs, limit) && Concat(pieces) == Head(start, fs) + rest
    ensures Refused(start, fs, limit) ==> Receive(START, pieces, limit) == Result(Stopped, [])
    ensures rest == [] && !Refused(start, fs, limit) ==> Receive(START, pieces, limit).state.Open?
  {
    hide Drain, Receive, CutShows, Refused, Head, HeadMessage, HeadersEnd, Take, Advances, LoneReturn, Concat,
         DistinctNames;
    HeadersAreRead(start, fs, rest, limit);
    var msg, n := HeadMessage(start, fs), |Head(start, fs)| - 2;
    var s := Open(Headers(msg), CRLF + rest, n, |fs|);
    EmptyLine(msg, rest, n, |fs|, limit);
    RefusedAtTheEmptyLine(start, fs, rest, n, |fs|, limit);
    StartWaits(limit);
    assert [] + Concat(pieces) == Concat(pieces);
    if Refused(start, fs, limit) {
      SilentStep(s, limit);
      StoppedStays(limit);
      PiecesAlike(pieces, limit);
    } else if rest == [] {
      DrainStep(s, limit);
      EndIsOpen(msg, n + 2, |fs|, limit);
      FragmentationDoesNotMatter(START, pieces, limit);
    }
  }

  lemma StoppedStays(limit: nat)
    ensures Drain(Stopped, limit) == Result(Stopped, []) && !CutShows(Stopped, false, limit)
  {
  }

  lemma PiecesAlike(pieces: seq<Text>, limit: nat)
    requires !CutShows(Feed(START, Concat(pieces)), false, limit)
    ensures Receive(START, pieces, limit) == Drain(Feed(START, Concat(pieces)), limit)
  {
    hide Drain, Receive, CutShows;
    StartWaits(limit);
    FragmentationExactly(START, Concat(pieces), limit);
  }

  lemma EndIsOpen(msg: Message, drained: nat, count: nat, limit: nat)
    requires HeadersEnd(msg, [], drained, count, limit).state.Open? && drained <= limit
    ensures Drain(HeadersEnd(msg, [], drained, count, limit).state, limit).state.Open?
  {
    hide Decimal, AllDigits, GetHeader;
    var s := HeadersEnd(msg, [], drained, count, limit).state;
    assert !Advances(s, limit);
    DrainWaits(s, limit);
  }

  /** A start line that does not parse breaks the stream, in any pieces, whatever follows. */
  lemma BadStartIsRefused(line: Text, rest: Text, pieces: seq<Text>, limit: nat)
    requires LF !in line && (ParseStart(line) == None || |line| + 2 > limit)
    requires Concat(pieces) == line + CRLF + rest
    ensures Receive(START, pieces, limit) == Result(Stopped, [])
  {
    hide Drain, Receive, CutShows, ParseStart, TakeLine, Concat;
    var s := Open(StartLine, line + CRLF + rest, 0, 0);
    TakeWrittenLine(line, rest);
    SilentStep(s, limit);
    StoppedStays(limit);
    assert [] + Concat(pieces) == Concat(pieces);
    PiecesAlike(pieces, limit);
  }

  /** So does a line that has not ended when the limit is passed. */
  lemma EndlessLineIsRefused(text: Text, pieces: seq<Text>, limit: nat)
    requires LF !in text && |text| > limit && Concat(pieces) == text
    ensures Receive(START, pieces, limit) == Result(Stopped, [])
  {
    hide Drain, Receive, CutShows, Concat;
    SilentStep(Open(StartLine, text, 0, 0), limit);
    StoppedStays(limit);
    assert [] + Concat(pieces) == Concat(pieces);
    PiecesAlike(pieces, limit);
  }

  /** One header too many breaks the stream. */
  lemma TooManyHeadersAreRefused(start: Start, fs: seq<Field>, f: Field, rest: Text, pieces: seq<Text>, limit: nat)
    requires PrintedHead(start, fs, limit) && |fs| == HEADERS_LIMIT && GoodField(f)
    requires Concat(pieces) == StartText(start) + CRLF + FieldLines(fs) + FieldText(f) + CRLF + rest
    ensures Receive(START, pieces, limit) == Result(Stopped, [])
  {
    hide Drain, Receive, CutShows, StartText, FieldLines, FieldText, HeaderMap, GoodStart, DistinctNames, GoodField,
         TakeLine, AddLine, Concat;
    var text, lines, more := StartText(start), FieldLines(fs), FieldText(f) + CRLF + rest;
    assert Concat(pieces) == text + CRLF + (lines + more);
    StartIsTaken(start, lines + more, limit);
    FieldsRoundTrip(false, Message(DeliveredStart(start), map[], []), fs, more, |text| + 2, 0, limit);
    var s := Open(Headers(HeadMessage(start, fs)), more, |text| + 2 + |lines|, |fs|);
    FieldRoundTrip(map[], f);
    TakeWrittenLine(FieldText(f), rest);
    SilentStep(s, limit);
    StoppedStays(limit);
    assert [] + Concat(pieces) == Concat(pieces);
    PiecesAlike(pieces, limit);
  }
}
