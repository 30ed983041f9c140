/** Whether the way the bytes are cut shows in what the HTTP parser reads: exactly when it does, and
    never for a stream that is accepted in one piece. */
module HttpFragments {
  import opened DataBuffers
  import opened HttpText
  import opened HttpParser

  /** Behind a chunk there is a carriage return, and it is known not to end the line. */
  predicate LoneReturn(s: State) {
    s.Open? && s.stage.ChunkEnd? && |s.input| >= 2 && s.input[0] == CR && s.input[1] != LF
  }

  /** What a cut right behind the carriage return makes of it. */
  function SkipReturn(s: State): State
    requires LoneReturn(s)
  {
    Open(s.stage, s.input[1..], s.drained + 1, s.count)
  }

  /** Some way of cutting the input shows. The parser gives up at a lone carriage return, unless a cut
      hides it; broken says that in one piece the stream has been given up already. */
  predicate CutShows(s: State, broken: bool, limit: nat)
    decreases Measure(s)
  {
    if !Advances(s, limit) then broken && s.Open?
    else if LoneReturn(s) then CutShows(SkipReturn(s), true, limit)
    else
      var r := Take(s, limit);
      (broken && r.out != []) || CutShows(r.state, broken, limit)
  }

  /** What is read in one piece. */
  function Whole(s: State, broken: bool, limit: nat): Result {
    if broken then Result(Stopped, []) else Drain(s, limit)
  }

  function Then(out: seq<Message>, r: Result): Result {
    Result(r.state, out + r.out)
  }

  /** Reading goes on from one state as from the other, and cuts show in the one as in the other. */
  predicate SameFrom(s: State, t: State, limit: nat) {
    Drain(s, limit) == Drain(t, limit) && CutShows(s, false, limit) == CutShows(t, false, limit)
  }

  lemma SilentStep(s: State, limit: nat)
    requires Advances(s, limit) && !LoneReturn(s) && Take(s, limit).out == []
    ensures SameFrom(s, Take(s, limit).state, limit)
  {
    DrainStep(s, limit);
    NothingFirst(Drain(Take(s, limit).state, limit).out);
  }

  // ----- A cut that does not show ------------------------------------------------------------------

  /** A step that is the same with more bytes behind it. */
  predicate Commutes(s: State, b: Text, limit: nat) {
    && Advances(s, limit) && Advances(Feed(s, b), limit) && !LoneReturn(Feed(s, b))
    && Take(Feed(s, b), limit) == Result(Feed(Take(s, limit).state, b), Take(s, limit).out)
  }

  /** A step that, with more bytes behind it, goes as far as the next one does. */
  predicate Overtakes(s: State, b: Text, limit: nat) {
    && Advances(s, limit) && Take(s, limit).out == [] && !LoneReturn(Feed(s, b)) && Advances(Feed(s, b), limit)
    && var t := Feed(Take(s, limit).state, b);
    && !LoneReturn(t)
    && if Advances(t, limit) then Take(t, limit) == Take(Feed(s, b), limit)
       else Take(Feed(s, b), limit) == Result(t, [])
  }

  lemma LineCommutes(s: State, b: Text, limit: nat)
    requires Advances(s, limit) && NeedsLine(s.stage)
    ensures Commutes(s, b, limit)
  {
    hide TakeLine, TakeText;
    var a := s.input;
    if TakeLine(a).Some? {
      TakeLineEarly(a, b);
      TextLater(s, b, TakeLine(a).value, limit);
    } else if TakeLine(a + b).Some? {
      TakeLineLate(a, b);
    }
  }

  lemma TextLater(s: State, b: Text, line: Line, limit: nat)
    requires s.Open? && NeedsLine(s.stage) && 0 < line.length <= |s.input|
    ensures TakeText(Feed(s, b), line, limit) ==
            var r := TakeText(s, line, limit); Result(Feed(r.state, b), r.out)
  {
    hide ParseStart, AddLine, ChunkSize, Decimal, GetHeader;
    assert (s.input + b)[line.length..] == s.input[line.length..] + b;
  }

  lemma EofOvertakes(s: State, b: Text, limit: nat)
    requires Advances(s, limit) && s.stage.EofBody?
    ensures Overtakes(s, b, limit)
  {
    var body, a := s.stage.msg.body, s.input;
    assert [] + b == b && body + (a + b) == body + a + b;
    if |b| == 0 {
      assert a + b == a;
    }
  }

  lemma BodyCommutes(s: State, b: Text, limit: nat)
    requires Advances(s, limit) && (s.stage.LengthBody? || s.stage.ChunkData?) && |s.input| >= s.stage.left
    ensures Commutes(s, b, limit)
  {
    var a, left := s.input, s.stage.left;
    assert (a + b)[..left] == a[..left] && (a + b)[left..] == a[left..] + b;
  }

  lemma PartOvertakes(s: State, b: Text, limit: nat)
    requires s.Open? && (s.stage.LengthBody? || s.stage.ChunkData?) && 0 < |s.input| < s.stage.left
    ensures Overtakes(s, b, limit)
  {
    if |b| == 0 {
      assert s.input + b == s.input && Feed(Fill(s), b) == Fill(s);
    } else {
      PartsAdd(s, b);
    }
  }

  lemma PartsAdd(s: State, b: Text)
    requires s.Open? && (s.stage.LengthBody? || s.stage.ChunkData?) && 0 < |s.input| < s.stage.left && |b| > 0
    ensures TakeBody(Feed(Fill(s), b)) == TakeBody(Feed(s, b))
  {
    var a, left, body := s.input, s.stage.left, s.stage.msg.body;
    assert [] + b == b;
    if |a| + |b| >= left {
      var n := left - |a|;
      assert (a + b)[..left] == a + b[..n] && (a + b)[left..] == b[n..];
      assert body + (a + b[..n]) == body + a + b[..n];
    } else {
      assert body + (a + b) == body + a + b;
    }
  }

  lemma ChunkEndCommutes(s: State, b: Text, limit: nat)
    requires s.Open? && s.stage.ChunkEnd? && |s.input| > 0 && s.input != [CR] && !LoneReturn(s)
    ensures Commutes(s, b, limit)
  {
    var a := s.input;
    assert (a + b)[1..] == a[1..] + b;
    assert |a| >= 2 ==> (a + b)[2..] == a[2..] + b;
  }

  lemma ReturnOvertakes(s: State, b: Text, limit: nat)
    requires s.Open? && s.stage.ChunkEnd? && s.input == [CR] && (|b| == 0 || b[0] == LF)
    ensures Overtakes(s, b, limit)
  {
    if |b| == 0 {
      assert s.input + b == s.input;
    } else {
      assert [] + b == b && (s.input + b)[1] == b[0] && (s.input + b)[2..] == b[1..];
    }
  }

  /** Only a carriage return behind a chunk makes a step that more bytes would have changed. */
  lemma StepKinds(s: State, b: Text, limit: nat)
    requires Advances(s, limit)
    ensures Commutes(s, b, limit) || Overtakes(s, b, limit) || LoneReturn(Feed(s, b))
  {
    hide Commutes, Overtakes;
    if NeedsLine(s.stage) {
      LineCommutes(s, b, limit);
    } else if s.stage.EofBody? {
      EofOvertakes(s, b, limit);
    } else if s.stage.ChunkEnd? {
      if s.input == [CR] {
        if |b| == 0 || b[0] == LF {
          ReturnOvertakes(s, b, limit);
        }
      } else if !LoneReturn(s) {
        ChunkEndCommutes(s, b, limit);
      }
    } else if |s.input| >= s.stage.left {
      BodyCommutes(s, b, limit);
    } else {
      PartOvertakes(s, b, limit);
    }
  }

  lemma StoppedShowsNothing(broken: bool, limit: nat)
    ensures !CutShows(Stopped, broken, limit) && Drain(Stopped, limit) == Result(Stopped, [])
  {
  }

  /** In one piece a lone carriage return is the end. */
  lemma LoneReturnStops(s: State, limit: nat)
    requires LoneReturn(s)
    ensures Advances(s, limit) && Take(s, limit) == Result(Stopped, []) && Drain(s, limit) == Result(Stopped, [])
  {
    DrainStep(s, limit);
    StoppedShowsNothing(false, limit);
  }

  /** A step now and the rest later reads what all of it later reads, unless a cut can show. */
  lemma StepLater(s: State, b: Text, broken: bool, limit: nat) returns (later: bool)
    requires Advances(s, limit) && !CutShows(Feed(s, b), broken, limit)
    ensures !CutShows(Feed(Take(s, limit).state, b), later, limit)
    ensures Whole(Feed(s, b), broken, limit) ==
            Then(Take(s, limit).out, Whole(Feed(Take(s, limit).state, b), later, limit))
  {
    hide Take, Advances, Drain;
    StepKinds(s, b, limit);
    if LoneReturn(Feed(s, b)) {
      later := ReturnLater(s, b, broken, limit);
    } else {
      later := broken;
      DrainStep(Feed(s, b), limit);
      var t := Feed(Take(s, limit).state, b);
      if !Commutes(s, b, limit) {
        NothingFirst(Drain(Feed(s, b), limit).out);
        NothingFirst(Drain(t, limit).out);
        if Advances(t, limit) {
          DrainStep(t, limit);
        }
      }
    }
  }

  lemma ReturnLater(s: State, b: Text, broken: bool, limit: nat) returns (later: bool)
    requires Advances(s, limit) && LoneReturn(Feed(s, b)) && !CutShows(Feed(s, b), broken, limit)
    ensures !CutShows(Feed(Take(s, limit).state, b), later, limit)
    ensures Whole(Feed(s, b), broken, limit) ==
            Then(Take(s, limit).out, Whole(Feed(Take(s, limit).state, b), later, limit))
  {
    hide Drain, Take, Advances, LoneReturn;
    later := true;
    LoneReturnStops(Feed(s, b), limit);
    if LoneReturn(s) {
      LoneReturnStops(s, limit);
      StoppedShowsNothing(true, limit);
    } else {
      ReturnIsSkipped(s, b, limit);
    }
    NothingFirst(Whole(Feed(Take(s, limit).state, b), later, limit).out);
  }

  lemma ReturnIsSkipped(s: State, b: Text, limit: nat)
    requires Advances(s, limit) && LoneReturn(Feed(s, b)) && !LoneReturn(s)
    ensures Take(s, limit).out == [] && Feed(Take(s, limit).state, b) == SkipReturn(Feed(s, b))
  {
    assert s.input == [CR];
    assert (s.input + b)[1..] == [] + b;
  }

  lemma {:induction false} DrainLater(s: State, b: Text, broken: bool, limit: nat) returns (later: bool)
    requires !CutShows(Feed(s, b), broken, limit)
    ensures !CutShows(Feed(Drain(s, limit).state, b), later, limit)
    ensures Whole(Feed(s, b), broken, limit) ==
            Then(Drain(s, limit).out, Whole(Feed(Drain(s, limit).state, b), later, limit))
    decreases Measure(s)
  {
    hide Take, Feed, Advances, CutShows, Whole;
    if Advances(s, limit) {
      var r := Take(s, limit);
      var next := StepLater(s, b, broken, limit);
      later := DrainLater(r.state, b, next, limit);
      var v := Drain(r.state, limit);
      var w := Whole(Feed(v.state, b), later, limit);
      assert r.out + (v.out + w.out) == (r.out + v.out) + w.out;
    } else {
      later := broken;
      NothingFirst(Whole(Feed(s, b), broken, limit).out);
    }
  }

  lemma {:induction false} DrainIsIdempotent(s: State, limit: nat)
    ensures Drain(Drain(s, limit).state, limit) == Result(Drain(s, limit).state, [])
    decreases Measure(s)
  {
    hide Take, Advances;
    if Advances(s, limit) {
      DrainIsIdempotent(Take(s, limit).state, limit);
    }
  }

  lemma {:induction false} PiecesReadAlike(s: State, chunks: seq<Text>, broken: bool, limit: nat)
    requires Drain(s, limit) == Result(s, []) && !CutShows(Feed(s, Concat(chunks)), broken, limit)
    ensures Receive(s, chunks, limit) == Whole(Feed(s, Concat(chunks)), broken, limit)
    decreases |chunks|
  {
    hide Drain;
    if |chunks| == 0 {
      assert Feed(s, []) == s by { assert s.Open? ==> s.input + [] == s.input; }
      assert !Advances(s, limit) by { if Advances(s, limit) { DrainMoves(s, limit); } }
    } else {
      var rest := Concat(chunks[1..]);
      var t := Feed(s, chunks[0]);
      assert s.Open? ==> s.input + (chunks[0] + rest) == s.input + chunks[0] + rest;
      var later := DrainLater(t, rest, broken, limit);
      DrainIsIdempotent(t, limit);
      PiecesReadAlike(Drain(t, limit).state, chunks[1..], later, limit);
    }
  }

  lemma {:induction false} DrainShrinks(s: State, limit: nat)
    ensures Measure(Drain(s, limit).state) <= Measure(s)
    decreases Measure(s)
  {
    hide Take, Advances, Measure;
    if Advances(s, limit) {
      DrainShrinks(Take(s, limit).state, limit);
    }
  }

  lemma DrainMoves(s: State, limit: nat)
    requires Advances(s, limit)
    ensures Drain(s, limit).state != s
  {
    hide Take, Advances;
    DrainShrinks(Take(s, limit).state, limit);
  }

  // ----- A cut that shows --------------------------------------------------------------------------

  /** A step takes a prefix of the input, and would be the same with anything else behind that. */
  lemma StepIsLocal(s: State, limit: nat) returns (n: nat)
    requires Advances(s, limit) && !LoneReturn(s) && Advances(Take(s, limit).state, limit)
    ensures n <= |s.input| && Take(s, limit).state.input == s.input[n..]
    ensures forall x :: TakesPrefix(s, n, x, limit)
  {
    if NeedsLine(s.stage) {
      n := LineIsLocal(s, limit);
    } else if s.stage.ChunkEnd? {
      n := ChunkEndIsLocal(s, limit);
    } else {
      n := BodyIsLocal(s, limit);
    }
  }

  predicate TakesPrefix(s: State, n: nat, x: Text, limit: nat) {
    && Advances(s, limit) && n <= |s.input| && Take(s, limit).state.Open?
    && var t := s.(input := s.input[..n] + x);
    && Advances(t, limit)
    && Take(t, limit) == Result(Take(s, limit).state.(input := x), Take(s, limit).out)
  }

  lemma LineIsLocal(s: State, limit: nat) returns (n: nat)
    requires Advances(s, limit) && NeedsLine(s.stage) && Take(s, limit).state.Open?
    ensures n <= |s.input| && Take(s, limit).state.input == s.input[n..]
    ensures forall x :: TakesPrefix(s, n, x, limit)
  {
    hide ParseStart, AddLine, ChunkSize, Decimal, GetHeader;
    n := TakeLine(s.input).value.length;
    forall x ensures TakesPrefix(s, n, x, limit) {
      LineTakesPrefix(s, n, x, limit);
    }
  }

  lemma LineTakesPrefix(s: State, n: nat, x: Text, limit: nat)
    requires Advances(s, limit) && NeedsLine(s.stage) && Take(s, limit).state.Open?
    requires TakeLine(s.input).Some? && n == TakeLine(s.input).value.length
    ensures TakesPrefix(s, n, x, limit)
  {
    hide ParseStart, AddLine, ChunkSize, Decimal, GetHeader, TakeLine;
    var c := s.input[..n];
    LineAlone(s.input);
    TakeLineEarly(c, x);
    assert (c + x)[n..] == x;
  }

  lemma LineAlone(a: Text)
    requires TakeLine(a).Some?
    ensures TakeLine(a[..TakeLine(a).value.length]) == TakeLine(a)
  {
    var i := Find(a, LF);
    var c := a[..i + 1];
    FindIsUnique(c, LF, i);
    assert c[..i] == a[..i];
    assert i > 0 ==> c[..i - 1] == a[..i - 1];
  }

  lemma ChunkEndIsLocal(s: State, limit: nat) returns (n: nat)
    requires s.Open? && s.stage.ChunkEnd? && |s.input| > 0 && !LoneReturn(s) && Advances(Take(s, limit).state, limit)
    ensures n <= |s.input| && Take(s, limit).state.input == s.input[n..]
    ensures forall x :: TakesPrefix(s, n, x, limit)
  {
    n := if s.input[0] == LF then 1 else 2;
    forall x ensures TakesPrefix(s, n, x, limit) {
      assert (s.input[..n] + x)[n..] == x;
    }
  }

  lemma BodyIsLocal(s: State, limit: nat) returns (n: nat)
    requires Advances(s, limit) && !NeedsLine(s.stage) && !s.stage.ChunkEnd? && Advances(Take(s, limit).state, limit)
    ensures n <= |s.input| && Take(s, limit).state.input == s.input[n..]
    ensures forall x :: TakesPrefix(s, n, x, limit)
  {
    n := s.stage.left;
    forall x ensures TakesPrefix(s, n, x, limit) {
      var c := s.input[..n];
      assert (c + x)[..n] == c && (c + x)[n..] == x;
    }
  }

  lemma ThenDiffers(out: seq<Message>, a: Result, b: Result)
    requires a != b
    ensures Then(out, a) != Then(out, b)
  {
    if out + a.out == out + b.out {
      assert a.out == (out + a.out)[|out|..] && b.out == (out + b.out)[|out|..];
    }
  }

  function Emptied(s: State): State
    requires s.Open?
  {
    s.(input := [])
  }

  lemma OnePiece(s: State, limit: nat)
    requires s.Open?
    ensures Concat([s.input]) == s.input && Receive(Emptied(s), [s.input], limit) == Drain(s, limit)
  {
    var chunks := [s.input];
    var r := Drain(s, limit);
    assert Feed(Emptied(s), s.input) == s && chunks[1..] == [] && Concat(chunks[1..]) == [];
    assert s.input + [] == s.input && r.out + [] == r.out && Receive(r.state, [], limit) == Result(r.state, []);
  }

  /** Where a cut can show, here is one that does. */
  lemma {:induction false} ShowingCut(s: State, broken: bool, limit: nat) returns (chunks: seq<Text>)
    requires s.Open? && CutShows(s, broken, limit)
    ensures |chunks| > 0 && Concat(chunks) == s.input
    ensures Receive(Emptied(s), chunks, limit) != Whole(s, broken, limit)
    decreases Measure(s)
  {
    hide Take, Advances, Drain, Receive, Concat;
    if LoneReturn(s) {
      LoneReturnStops(s, limit);
      var more := ShowingCut(SkipReturn(s), true, limit);
      chunks := CutBehindReturn(s, more, limit);
    } else if Advances(s, limit) && Advances(Take(s, limit).state, limit) &&
        CutShows(Take(s, limit).state, broken, limit)
              && !(broken && Take(s, limit).out != []) {
      var r := Take(s, limit);
      var n := StepIsLocal(s, limit);
      var more := ShowingCut(r.state, broken, limit);
      chunks := CutLater(s, n, more, limit);
      DrainStep(s, limit);
      ThenDiffers(r.out, Receive(Emptied(r.state), more, limit), Whole(r.state, broken, limit));
    } else {
      chunks := [s.input];
      OnePiece(s, limit);
      ReadsOn(s, limit);
    }
  }

  /** The stream is not given up, or something is delivered. */
  lemma ReadsOn(s: State, limit: nat)
    requires CutShows(s, true, limit) && !LoneReturn(s)
    requires Advances(s, limit) ==> Take(s, limit).out != [] || !Advances(Take(s, limit).state, limit)
    ensures Drain(s, limit) != Result(Stopped, [])
  {
    hide Take, Advances;
    if Advances(s, limit) {
      DrainStep(s, limit);
    }
  }

  lemma CutBehindReturn(s: State, more: seq<Text>, limit: nat) returns (chunks: seq<Text>)
    requires LoneReturn(s) && Concat(more) == SkipReturn(s).input
    ensures |chunks| > 0 && Concat(chunks) == s.input
    ensures Receive(Emptied(s), chunks, limit) == Receive(Emptied(SkipReturn(s)), more, limit)
  {
    hide Drain;
    chunks := [[CR]] + more;
    assert chunks[1..] == more && [CR] + s.input[1..] == s.input;
    var t := Feed(Emptied(s), [CR]);
    assert t.input == [CR];
    DrainStep(t, limit);
    DrainWaits(Emptied(SkipReturn(s)), limit);
    assert Drain(t, limit) == Result(Emptied(SkipReturn(s)), []);
    NothingFirst(Receive(Emptied(SkipReturn(s)), more, limit).out);
  }

  lemma DrainWaits(s: State, limit: nat)
    requires !Advances(s, limit)
    ensures Drain(s, limit) == Result(s, [])
  {
  }

  lemma CutLater(s: State, n: nat, more: seq<Text>, limit: nat) returns (chunks: seq<Text>)
    requires Advances(s, limit) && n <= |s.input| && Take(s, limit).state.Open? && |more| > 0
    requires Concat(more) == Take(s, limit).state.input == s.input[n..] && forall x :: TakesPrefix(s, n, x, limit)
    ensures |chunks| > 0 && Concat(chunks) == s.input
    ensures Receive(Emptied(s), chunks, limit) ==
            Then(Take(s, limit).out, Receive(Emptied(Take(s, limit).state), more, limit))
  {
    hide Take, Advances, Drain;
    var c, r := s.input[..n], Take(s, limit);
    chunks := [c + more[0]] + more[1..];
    assert chunks[1..] == more[1..] && c + (more[0] + Concat(more[1..])) == c + more[0] + Concat(more[1..]);
    assert c + s.input[n..] == s.input;
    var t := Feed(Emptied(s), c + more[0]);
    assert t == s.(input := c + more[0]) by { assert [] + (c + more[0]) == c + more[0]; }
    assert TakesPrefix(s, n, more[0], limit);
    DrainStep(t, limit);
    var u := Feed(Emptied(r.state), more[0]);
    assert u == r.state.(input := more[0]) by { assert [] + more[0] == more[0]; }
    var v := Receive(Drain(u, limit).state, more[1..], limit);
    assert r.out + Drain(u, limit).out + v.out == r.out + (Drain(u, limit).out + v.out);
  }

  // ----- Exactly when ------------------------------------------------------------------------------

  /** A stream is read the same in any pieces if and only if no carriage return behind a chunk can be
      hidden by a cut to any effect. */
  lemma FragmentationExactly(s: State, text: Text, limit: nat)
    requires s.Open? && s.input == [] && Drain(s, limit) == Result(s, [])
    ensures (forall chunks :: Concat(chunks) == text ==> Receive(s, chunks, limit) == Drain(Feed(s, text), limit))
            <==> !CutShows(Feed(s, text), false, limit)
  {
    hide Drain, Receive;
    if CutShows(Feed(s, text), false, limit) {
      var chunks := ShowingCut(Feed(s, text), false, limit);
      assert Feed(s, text).input == text && Emptied(Feed(s, text)) == s;
      assert Receive(s, chunks, limit) != Drain(Feed(s, text), limit);
    } else {
      forall chunks | Concat(chunks) == text ensures Receive(s, chunks, limit) == Drain(Feed(s, text), limit) {
        PiecesReadAlike(s, chunks, false, limit);
      }
    }
  }

  lemma {:induction false} AcceptedShowsNothing(s: State, limit: nat)
    requires Drain(s, limit).state.Open?
    ensures !CutShows(s, false, limit)
    decreases Measure(s)
  {
    hide Take, Advances;
    if Advances(s, limit) {
      if LoneReturn(s) {
        LoneReturnStops(s, limit);
      } else {
        AcceptedShowsNothing(Take(s, limit).state, limit);
      }
    }
  }

  /** Every stream that the parser accepts in one piece, it reads the same in any pieces. */
  lemma FragmentationDoesNotMatter(s: State, chunks: seq<Text>, limit: nat)
    requires Drain(s, limit) == Result(s, []) && Drain(Feed(s, Concat(chunks)), limit).state.Open?
    ensures Receive(s, chunks, limit) == Drain(Feed(s, Concat(chunks)), limit)
  {
    AcceptedShowsNothing(Feed(s, Concat(chunks)), limit);
    PiecesReadAlike(s, chunks, false, limit);
  }
}
