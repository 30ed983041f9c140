/** Whole messages with a chunked body, section 4.1 of RFC 7230, and the one place where the way they are
    cut shows. */
module HttpChunked {
  import opened DataBuffers
  import opened HttpText
  import opened HttpParser
  import opened HttpFragments
  import opened HttpHeads
  import opened HttpMessages

  /** Well-formed headers, one of which announces chunks. */
  ghost predicate GoodHead(start: Start, fs: seq<Field>, limit: nat) {
    && PrintedHead(start, fs, limit)
    && (exists i :: 0 <= i < |fs| && Lower(fs[i].key) == TRANSFER_ENCODING && fs[i].value == CHUNKED)
  }

  lemma ChunksAreAnnounced(start: Start, fs: seq<Field>, limit: nat)
    requires GoodHead(start, fs, limit)
    ensures GetHeader(HeadMessage(start, fs).headers, TRANSFER_ENCODING) == Some(CHUNKED)
  {
    hide GetHeader, HeadMessage, Lower;
    var i :| 0 <= i < |fs| && Lower(fs[i].key) == TRANSFER_ENCODING && fs[i].value == CHUNKED;
    HeaderOf(start, fs, i);
  }

  lemma HeadIsTaken(start: Start, fs: seq<Field>, rest: Text, limit: nat)
    requires GoodHead(start, fs, limit)
    ensures SameFrom(Open(StartLine, Head(start, fs) + rest, 0, 0),
                     Open(SizeLine(HeadMessage(start, fs)), rest, |Head(start, fs)|, |fs|), limit)
  {
    hide Drain, CutShows, Head, HeadMessage, GetHeader, Take, Advances, LoneReturn;
    HeadersAreRead(start, fs, rest, limit);
    HeadFits(start, fs, limit);
    ChunksAreAnnounced(start, fs, limit);
    var n := |Head(start, fs)| - 2;
    EmptyLine(HeadMessage(start, fs), rest, n, |fs|, limit);
    SilentStep(Open(Headers(HeadMessage(start, fs)), CRLF + rest, n, |fs|), limit);
  }

  /** A chunked message in any pieces delivers start line, headers with trailers, and the concatenation of
      its chunks. */
  lemma ChunkedMessageRoundTrip(start: Start, fs: seq<Field>, cs: seq<Text>, ts: seq<Field>, pieces: seq<Text>,
      limit: nat)
    requires GoodHead(start, fs, limit) && GoodChunks(cs, ts, |fs|)
    requires |Head(start, fs)| + |Chunked(cs, ts)| <= limit && Concat(pieces) == Head(start, fs) + Chunked(cs, ts)
    ensures Receive(START, pieces, limit) == Result(START, [Completed(HeadMessage(start, fs), cs, ts)])
  {
    hide Chunked, Drain, Receive, Concat, Head, GoodHead, HeadMessage, GoodChunks, Completed;
    var msg, done := HeadMessage(start, fs), Completed(HeadMessage(start, fs), cs, ts);
    HeadIsTaken(start, fs, Chunked(cs, ts), limit);
    ChunkedIsTaken(msg, cs, ts, [], |Head(start, fs)|, |fs|, limit);
    assert Chunked(cs, ts) + [] == Chunked(cs, ts) && [done] + [] == [done];
    StartWaits(limit);
    assert [] + Concat(pieces) == Concat(pieces);
    FragmentationDoesNotMatter(START, pieces, limit);
  }

  lemma NoBodyYet(start: Start, fs: seq<Field>)
    ensures HeadMessage(start, fs).body == []
  {
  }

  // ----- The cut that shows ------------------------------------------------------------------------

  /** A chunk up to its data. */
  function ChunkStart(c: Text): Text {
    HexDigits(|c|) + CRLF + c
  }

  lemma ChunkIsRead(msg: Message, c: Text, rest: Text, drained: nat, count: nat, limit: nat)
    requires 0 < |c| < 0x8000_0000 && drained + |ChunkStart(c)| <= limit
    ensures SameFrom(Open(SizeLine(msg), ChunkStart(c) + rest, drained, count),
                     Open(ChunkEnd(msg.(body := msg.body + c)), rest, drained + |ChunkStart(c)|, count), limit)
  {
    hide Drain, CutShows, HexDigits;
    var n := |HexDigits(|c|)|;
    assert ChunkStart(c) + rest == HexDigits(|c|) + CRLF + (c + rest);
    SizeIsTaken(msg, |c|, c + rest, drained, count, limit);
    var s := Open(ChunkData(msg, |c|), c + rest, drained + n + 2, count);
    assert s.input[..|c|] == c && s.input[|c|..] == rest;
    SilentStep(s, limit);
  }

  /** A chunk may end in a line feed alone. */
  lemma LineFeedEndsChunk(start: Start, fs: seq<Field>, c: Text, rest: Text, limit: nat)
    requires GoodHead(start, fs, limit) && 0 < |c| < 0x8000_0000 && |Head(start, fs)| + |ChunkStart(c)| <= limit
    ensures SameFrom(Open(StartLine, Head(start, fs) + (ChunkStart(c) + ([LF] + rest)), 0, 0),
                     Open(SizeLine(HeadMessage(start, fs).(body := c)), rest,
                          |Head(start, fs)| + |ChunkStart(c)| + 1, |fs|), limit)
  {
    hide Drain, CutShows, Head, GoodHead, HeadMessage, ChunkStart;
    var msg, n := HeadMessage(start, fs), |Head(start, fs)|;
    HeadIsTaken(start, fs, ChunkStart(c) + ([LF] + rest), limit);
    ChunkIsRead(msg, c, [LF] + rest, n, |fs|, limit);
    NoBodyYet(start, fs);
    assert [] + c == c;
    var s := Open(ChunkEnd(msg.(body := c)), [LF] + rest, n + |ChunkStart(c)|, |fs|);
    assert s.input[1..] == rest;
    SilentStep(s, limit);
  }

  /** Anything else behind a chunk, but for a carriage return, breaks the stream, in any pieces. */
  lemma OtherBytesBreakChunk(start: Start, fs: seq<Field>, c: Text, b: Byte, rest: Text, pieces: seq<Text>, limit: nat)
    requires GoodHead(start, fs, limit) && 0 < |c| < 0x8000_0000 && |Head(start, fs)| + |ChunkStart(c)| <= limit
    requires b != CR && b != LF && Concat(pieces) == Head(start, fs) + (ChunkStart(c) + ([b] + rest))
    ensures Receive(START, pieces, limit) == Result(Stopped, [])
  {
    hide Drain, Receive, CutShows, Head, GoodHead, HeadMessage, ChunkStart, Concat;
    var msg, n := HeadMessage(start, fs), |Head(start, fs)|;
    HeadIsTaken(start, fs, ChunkStart(c) + ([b] + rest), limit);
    ChunkIsRead(msg, c, [b] + rest, n, |fs|, limit);
    SilentStep(Open(ChunkEnd(msg.(body := msg.body + c)), [b] + rest, n + |ChunkStart(c)|, |fs|), limit);
    StoppedStays(limit);
    assert [] + Concat(pieces) == Concat(pieces);
    PiecesAlike(pieces, limit);
  }

  /** A carriage return behind a chunk that comes alone is consumed. */
  lemma LoneReturnIsTaken(msg: Message, rest: Text, drained: nat, count: nat, limit: nat)
    ensures Drain(Open(ChunkEnd(msg), [CR], drained, count), limit) ==
            Result(Open(ChunkEnd(msg), [], drained + 1, count), [])
    ensures Drain(Open(ChunkEnd(msg), [CR, LF] + rest, drained, count), limit) ==
            Drain(Open(SizeLine(msg), rest, drained + 2, count), limit)
  {
    hide Drain;
    var s, t := Open(ChunkEnd(msg), [CR], drained, count), Open(ChunkEnd(msg), [CR, LF] + rest, drained, count);
    DrainStep(s, limit);
    DrainWaits(Open(ChunkEnd(msg), [], drained + 1, count), limit);
    assert t.input[2..] == rest;
    DrainStep(t, limit);
    NothingFirst(Drain(Take(t, limit).state, limit).out);
  }

  /** Every message of one chunk, with one carriage return too many behind the chunk: in one piece it
      breaks the stream, and cut behind the first carriage return it is delivered. */
  lemma SplitMatters(start: Start, fs: seq<Field>, c: Text, limit: nat)
    requires GoodHead(start, fs, limit) && 0 < |c| < 0x8000_0000
    requires |Head(start, fs)| + |ChunkStart(c)| + 3 + |Chunked([], [])| <= limit
    ensures var front, back := Head(start, fs) + ChunkStart(c) + [CR], [CR, LF] + Chunked([], []);
            && Drain(Feed(START, front + back), limit) == Result(Stopped, [])
            && Receive(START, [front, back], limit) == Result(START, [HeadMessage(start, fs).(body := c)])
  {
    hide Drain, CutShows, Receive, Chunked, Head, GoodHead, HeadMessage, ChunkStart, Completed, GoodChunks;
    var head, front, back := Head(start, fs), Head(start, fs) + ChunkStart(c) + [CR], [CR, LF] + Chunked([], []);
    var msg, drained := HeadMessage(start, fs).(body := c), |head| + |ChunkStart(c)|;
    NoBodyYet(start, fs);
    assert [] + c == c;
    WholeBreaks(start, fs, c, limit);
    assert front == head + (ChunkStart(c) + [CR]) && Feed(START, front).input == front;
    HeadIsTaken(start, fs, ChunkStart(c) + [CR], limit);
    ChunkIsRead(HeadMessage(start, fs), c, [CR], |head|, |fs|, limit);
    LoneReturnIsTaken(msg, [], drained, |fs|, limit);
    var t := Open(ChunkEnd(msg), [], drained + 1, |fs|);
    assert Drain(Feed(START, front), limit) == Result(t, []);
    assert Feed(t, back).input == back;
    LoneReturnIsTaken(msg, Chunked([], []), drained + 1, |fs|, limit);
    NothingMore(start, fs, msg, limit);
    ChunkedIsTaken(msg, [], [], [], drained + 3, |fs|, limit);
    assert Chunked([], []) + [] == Chunked([], []);
    DrainWaits(START, limit);
    assert [msg] + [] == [msg];
    TwoPieces(START, front, back, limit);
    NothingFirst(Drain(Feed(t, back), limit).out);
  }

  lemma NothingMore(start: Start, fs: seq<Field>, msg: Message, limit: nat)
    requires GoodHead(start, fs, limit)
    ensures Completed(msg, [], []) == msg && GoodChunks([], [], |fs|)
  {
    hide Head, DistinctNames, GoodStart, Lower;
    assert msg.body + [] == msg.body;
  }

  lemma WholeBreaks(start: Start, fs: seq<Field>, c: Text, limit: nat)
    requires GoodHead(start, fs, limit) && 0 < |c| < 0x8000_0000
    requires |Head(start, fs)| + |ChunkStart(c)| <= limit
    ensures Drain(Feed(START, Head(start, fs) + ChunkStart(c) + [CR] + ([CR, LF] + Chunked([], []))), limit) ==
            Result(Stopped, [])
  {
    hide Drain, CutShows, Chunked, Head, GoodHead, HeadMessage, ChunkStart;
    var rest := [CR] + ([CR, LF] + Chunked([], []));
    var s := Feed(START, Head(start, fs) + ChunkStart(c) + [CR] + ([CR, LF] + Chunked([], [])));
    assert s.input == Head(start, fs) + (ChunkStart(c) + rest);
    HeadIsTaken(start, fs, ChunkStart(c) + rest, limit);
    var msg := HeadMessage(start, fs);
    ChunkIsRead(msg, c, rest, |Head(start, fs)|, |fs|, limit);
    LoneReturnStops(Open(ChunkEnd(msg.(body := msg.body + c)), rest, |Head(start, fs)| + |ChunkStart(c)|, |fs|), limit);
  }

  lemma TwoPieces(s: State, a: Text, b: Text, limit: nat)
    ensures var r := Drain(Feed(s, a), limit);
            var t := Drain(Feed(r.state, b), limit);
            Receive(s, [a, b], limit) == Result(t.state, r.out + t.out)
  {
    hide Drain, Feed;
    var r := Drain(Feed(s, a), limit);
    var t := Drain(Feed(r.state, b), limit);
    assert [a, b][1..] == [b] && [b][1..] == [];
    assert Receive(t.state, [], limit) == Result(t.state, []);
    assert t.out + [] == t.out;
    assert Receive(r.state, [b], limit) == Result(t.state, t.out);
  }
}
