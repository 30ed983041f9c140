/** Length-limited streams nested to any depth over one shared buffer. Each stream owns a window of the
    buffer; a nested one takes its window from the front of its parent's. The innermost stream is the
    one that is read. */
module LengthedStreams {
  import opened DataBuffers
  import Varint

  const SIZE: nat := 65536

  /** Lengths are 32-bit words. read and skip take what is left as a signed one. */
  const WORD: nat := 0x1_0000_0000
  const HALF: nat := 0x8000_0000

  function Signed(n: nat): int {
    if n < HALF then n else n - WORD
  }

  /** A window and a cursor in it; total counts what the stream may still deliver from its begin on. */
  datatype Level = Level(begin: nat, loc: int, end: nat, total: nat)

  /** What read does: it copies bytes out, or throws, or asks for a copy of a negative number of bytes, the
      effect of which is not defined. */
  datatype Reading = Copied(bytes: seq<Byte>) | Thrown | BadCopy(count: int)

  /** The level stands at position at of the base and promises the bytes up to stop: its window holds
      those up to next, the position of its parent. A window that does not hold all the stream may still
      deliver reaches the end of the buffer. */
  predicate Fits(b: seq<Byte>, base: seq<Byte>, l: Level, at: nat, next: nat, stop: nat) {
    && l.begin <= l.loc <= l.end <= |b| == SIZE && l.end - l.begin <= l.total < WORD
    && at + (l.end - l.loc) == next <= |base| && b[l.loc..l.end] == base[at..next]
    && at + l.total - (l.loc - l.begin) == stop
    && (l.total > l.end - l.begin ==> l.end == SIZE)
  }

  /** A window is empty only when the stream has delivered all, and then it is not at the end of the buffer. */
  predicate Supplied(l: Level, at: nat, stop: nat) {
    (at < stop || l.end == SIZE) ==> l.loc < l.end
  }

  class Nest {
    const base: seq<Byte>
    const buffer: array<Byte>
    var pos: nat
    var levels: seq<Level>
    /** Where each stream stands in the base, and up to where it promises bytes. */
    ghost var at: seq<nat>
    ghost var stop: seq<nat>

    ghost predicate Shape()
      reads this
    {
      buffer.Length == SIZE && |at| == |levels| && |stop| == |levels| && pos <= |base|
    }

    /** The position and the promise of whatever a level is nested in. */
    ghost function Next(k: nat): nat
      requires k <= |at|
      reads `pos, `at
    {
      if k == 0 then pos else at[k - 1]
    }

    ghost function Limit(k: nat): nat
      requires k <= |stop|
      reads `stop
    {
      if k == 0 then |base| else stop[k - 1]
    }

    /** Up to where there are bytes for a level: nothing that encloses it ends before. */
    ghost function Reach(k: nat): nat
      requires k <= |stop|
      reads `stop
    {
      if k == 0 then |base| else if stop[k - 1] < Reach(k - 1) then stop[k - 1] else Reach(k - 1)
    }

    /** The outermost n streams promise no more than what they are nested in. */
    ghost predicate Honest(n: nat)
      requires n <= |stop|
      reads `stop
    {
      forall k :: 0 <= k < n ==> stop[k] <= Limit(k)
    }

    ghost predicate Good(k: nat)
      requires Shape() && k < |levels|
      reads this, buffer
    {
      Fits(buffer[..], base, levels[k], at[k], Next(k), stop[k])
    }

    /** The outermost n streams. */
    ghost predicate Prefix(n: nat)
      requires Shape() && n <= |levels|
      reads this, buffer
    {
      forall k :: 0 <= k < n ==> Good(k)
    }

    ghost predicate Valid()
      reads this, buffer
    {
      Shape() && Prefix(|levels|)
    }

    /** FetchDataFromBuff: the next window, from the parent or from the base. It throws when too little
        is left there, and never when all streams are honest. */
    method Fetch(k: nat) returns (ok: bool)
      requires Shape() && k < |levels| && Prefix(k)
      requires levels[k].begin <= levels[k].end && levels[k].end - levels[k].begin <= levels[k].total < WORD
      requires Next(k) + levels[k].total - (levels[k].end - levels[k].begin) == stop[k]
      modifies `levels, `at, `pos, buffer
      ensures Shape() && |levels| == |old(levels)| && (ok ==> Prefix(k + 1)) && (Honest(k + 1) ==> ok)
      ensures ok ==> at[k] == old(Next(k)) && Supplied(levels[k], at[k], stop[k])
      ensures forall j :: k < j < |levels| ==> levels[j] == old(levels)[j] && at[j] == old(at)[j]
      decreases k
    {
      var total := levels[k].total - (levels[k].end - levels[k].begin);
      if k == 0 {
        ok := FillBuffer(total);
      } else {
        assert Good(k - 1);
        if levels[k - 1].loc == levels[k - 1].end {
          ok := Fetch(k - 1);
          if !ok {
            return;
          }
        }
        ok := TakeWindow(k, total);
      }
    }

    method FillBuffer(total: nat) returns (ok: bool)
      requires Shape() && |levels| > 0 && pos + total == stop[0] && total < WORD
      modifies `levels, `at, `pos, buffer
      ensures Shape() && |levels| == |old(levels)| && (ok ==> Prefix(1)) && (Honest(1) ==> ok)
      ensures ok ==> at[0] == old(pos) && Supplied(levels[0], at[0], stop[0])
      ensures forall j :: 0 < j < |levels| ==> levels[j] == old(levels)[j] && at[j] == old(at)[j]
    {
      var n := if total < SIZE then total else SIZE;
      var got := if n <= |base| - pos then n else |base| - pos;
      CopyIn(buffer, 0, base[pos..pos + got]);
      assert buffer[..][0..got] == base[pos..pos + got];
      ghost var start := pos;
      pos := pos + got;
      if got != n {
        assert stop[0] > Limit(0);
        return false;
      }
      levels := levels[0 := Level(0, 0, n, total)];
      at := at[0 := start];
      assert Good(0);
      ok := true;
    }

    method TakeWindow(k: nat, total: nat) returns (ok: bool)
      requires Shape() && 0 < k < |levels| && Prefix(k) && at[k - 1] + total == stop[k] && total < WORD
      requires Supplied(levels[k - 1], at[k - 1], stop[k - 1])
      modifies `levels, `at
      ensures Shape() && |levels| == |old(levels)| && (ok ==> Prefix(k + 1)) && (Honest(k + 1) ==> ok)
      ensures ok ==> at[k] == old(at)[k - 1] && Supplied(levels[k], at[k], stop[k])
      ensures forall j :: k < j < |levels| ==> levels[j] == old(levels)[j] && at[j] == old(at)[j]
    {
      hide Fits;
      assert Good(k - 1);
      var p := levels[k - 1];
      WindowBounds(buffer[..], base, p, at[k - 1], Next(k - 1), stop[k - 1]);
      var remain := p.end - p.loc;
      if remain < total && p.end != SIZE {
        assert stop[k] > Limit(k);
        return false;
      }
      var n := if remain >= total then total else remain;
      levels := levels[k := Level(p.loc, p.loc, p.loc + n, total)][k - 1 := p.(loc := p.loc + n)];
      at := at[k := at[k - 1]][k - 1 := at[k - 1] + n];
      SplitWindow(buffer[..], base, p, old(at)[k - 1], old(Next(k - 1)), stop[k - 1], n, stop[k], total);
      assert Good(k) && Good(k - 1);
      assert forall j :: 0 <= j < k - 1 ==> old(Good(j)) ==> Good(j);
      ok := true;
    }

    // ----- The innermost stream --------------------------------------------------------------------

    ghost function Here(): nat
      requires |at| > 0
      reads `at
    {
      at[|at| - 1]
    }

    ghost function End(): nat
      requires |stop| > 0
      reads `stop
    {
      stop[|stop| - 1]
    }

    /** No stream has passed the end of anything it is nested in. */
    lemma {:induction false} WithinReach(k: nat)
      requires Shape() && k <= |levels| && Prefix(k)
      ensures Next(k) <= Reach(k) <= Limit(k) && Reach(k) <= |base|
      ensures Honest(k) ==> Reach(k) == Limit(k)
      decreases k
    {
      if k > 0 {
        assert Good(k - 1);
        WithinReach(k - 1);
      }
    }

    /** Nothing but positions has changed. */
    twostate predicate SameStreams()
      reads this
    {
      |levels| == |old(levels)| && stop == old(stop)
    }

    constructor (base: seq<Byte>)
      ensures Valid() && fresh(buffer) && this.base == base && pos == 0 && levels == []
    {
      this.base, pos, levels, at, stop := base, 0, [], [], [];
      buffer := new Byte[SIZE](_ => 0);
    }

    /** A stream of the given length on top of the innermost one, or on the base. It may throw only when it
        promises too much. The length is a word. */
    method Push(len: nat) returns (ok: bool)
      requires Valid() && len < WORD
      modifies `levels, `at, `stop, `pos, buffer
      ensures Shape() && |levels| == |old(levels)| + 1 && stop == old(stop) + [old(Next(|levels|)) + len]
      ensures ok ==> Valid() && Here() == old(Next(|levels|))
      ensures Honest(|levels|) ==> ok
    {
      ghost var here := Next(|levels|);
      var k := |levels|;
      assert k > 0 ==> Good(k - 1);
      levels := levels + [Level(0, 0, 0, len)];
      at, stop := at + [0], stop + [here + len];
      assert forall j :: 0 <= j < k ==> old(Good(j)) ==> Good(j);
      ok := Fetch(k);
    }

    /** The innermost stream is given up. When it was read to its end, its parent goes on right behind. */
    method Pop()
      requires Valid() && |levels| > 0
      modifies `levels, `at, `stop
      ensures Valid() && |levels| == |old(levels)| - 1 && stop == old(stop)[..|levels|]
      ensures old(Here() == End()) ==> Next(|levels|) == old(End())
    {
      var k := |levels| - 1;
      assert Good(k);
      levels := levels[..k];
      at, stop := at[..k], stop[..k];
      assert forall j :: 0 <= j < k ==> old(Good(j)) ==> Good(j);
    }

    /** Moves the cursor over bytes of the window. */
    method Advance(n: nat)
      requires Valid() && |levels| > 0 && n <= levels[|levels| - 1].end - levels[|levels| - 1].loc
      modifies `levels, `at
      ensures Valid() && SameStreams() && Here() == old(Here()) + n
      ensures levels[|levels| - 1] == old(levels)[|levels| - 1].(loc := old(levels)[|levels| - 1].loc + n)
    {
      MoveAt(|levels| - 1, n);
    }

    /** The innermost stream, its window and its reach. */
    lemma WindowIsWithin()
      requires Valid() && |levels| > 0
      ensures var l := levels[|levels| - 1];
              && l.begin <= l.loc <= l.end <= buffer.Length && Here() + (l.end - l.loc) <= End()
              && Here() + (l.end - l.loc) <= Reach(|levels|) <= |base| && Reach(|levels|) <= End()
              && (l.end - l.begin < l.total <==> Here() + (l.end - l.loc) < End())
              && l.total - (l.loc - l.begin) == End() - Here() < WORD
    {
      hide Fits;
      var t := |levels| - 1;
      assert Good(t);
      WithinReach(t);
      WindowBounds(buffer[..], base, levels[t], at[t], Next(t), stop[t]);
    }

    /** The window of the innermost stream holds its next bytes. */
    lemma WindowIsNext()
      requires Valid() && |levels| > 0
      ensures var l := levels[|levels| - 1];
              && l.begin <= l.loc <= l.end <= buffer.Length && Here() + (l.end - l.loc) <= |base|
              && forall i :: l.loc <= i < l.end ==> buffer[i] == base[Here() + (i - l.loc)]
    {
      var t := |levels| - 1;
      assert Good(t);
      var l := levels[t];
      assert buffer[..][l.loc..l.end] == base[at[t]..Next(t)];
      forall i | l.loc <= i < l.end ensures buffer[i] == base[Here() + (i - l.loc)] {
        assert buffer[i] == buffer[..][l.loc..l.end][i - l.loc];
      }
    }

    /** What is left to promise for the innermost stream, when all around it are honest. */
    lemma InnermostReach()
      requires Valid() && |levels| > 0 && Honest(|levels| - 1)
      ensures Reach(|levels|) <= Limit(|levels| - 1) && (Honest(|levels|) <==> End() <= Limit(|levels| - 1))
    {
      hide Good;
      WithinReach(|levels| - 1);
      HonestNext(|levels| - 1);
    }

    lemma HonestNext(n: nat)
      requires n < |stop|
      ensures Honest(n + 1) <==> Honest(n) && stop[n] <= Limit(n)
    {
    }

    /** Another window for the innermost stream, when it has used up the one it holds. */
    method Refill() returns (ok: bool)
      requires Valid() && |levels| > 0 && levels[|levels| - 1].loc == levels[|levels| - 1].end
      modifies `levels, `at, `pos, buffer
      ensures Shape() && SameStreams() && (Honest(|levels|) ==> ok)
      ensures ok ==> Valid() && Here() == old(Here())
      ensures ok && Here() < End() ==> levels[|levels| - 1].loc < levels[|levels| - 1].end
    {
      assert Good(|levels| - 1);
      ok := Fetch(|levels| - 1);
    }

    /** The next byte, or -1 at the end. */
    method Get() returns (ok: bool, b: int)
      requires Valid() && |levels| > 0
      modifies `levels, `at, `pos, buffer
      ensures Shape() && SameStreams() && (Honest(|levels|) ==> ok) && (ok ==> Valid())
      ensures old(Here()) == End() ==> ok && b == -1 && Here() == old(Here())
      ensures old(Here()) < End() && ok ==> old(Here()) < |base| && b == base[old(Here())] && Here() == old(Here()) + 1
      ensures Reach(|levels|) == old(Here()) < End() ==> !ok
    {
      var t := |levels| - 1;
      WindowIsWithin();
      if levels[t].loc >= levels[t].end {
        if levels[t].end - levels[t].begin >= levels[t].total {
          return true, -1;
        }
        ok := Refill();
        if !ok {
          return false, 0;
        }
        WindowIsWithin();
      }
      WindowIsNext();
      b := buffer[levels[t].loc];
      Advance(1);
      ok := true;
    }

    /** Bytes of the window, copied out. */
    method TakeBytes(n: nat) returns (s: seq<Byte>)
      requires Valid() && |levels| > 0 && n <= levels[|levels| - 1].end - levels[|levels| - 1].loc
      modifies `levels, `at
      ensures Valid() && SameStreams() && Here() == old(Here()) + n <= |base| && s == base[old(Here())..Here()]
      ensures levels[|levels| - 1] == old(levels)[|levels| - 1].(loc := old(levels)[|levels| - 1].loc + n)
    {
      WindowIsNext();
      var l := levels[|levels| - 1];
      s := buffer[l.loc..l.loc + n];
      assert s == base[Here()..Here() + n];
      Advance(n);
    }

    /** All bytes of the window, and another window. */
    method TakeWhole() returns (ok: bool, s: seq<Byte>)
      requires Valid() && |levels| > 0
      modifies `levels, `at, `pos, buffer
      ensures Shape() && SameStreams() && (Honest(|levels|) ==> ok)
      ensures ok ==> Valid() && Here() == old(Here()) + old(levels)[|levels| - 1].end - old(levels)[|levels| - 1].loc
      ensures ok ==> old(Here()) <= Here() <= |base| && s == base[old(Here())..Here()]
      ensures ok && Here() < End() ==> levels[|levels| - 1].loc < levels[|levels| - 1].end
    {
      hide Fits, Good, Prefix, Reach, Honest;
      WindowIsWithin();
      s := TakeBytes(levels[|levels| - 1].end - levels[|levels| - 1].loc);
      ok := Refill();
    }

    /** The next left bytes. */
    method ReadLeft(left0: nat) returns (ok: bool, s: seq<Byte>)
      requires Valid() && |levels| > 0 && Here() + left0 <= End()
      modifies `levels, `at, `pos, buffer
      ensures Shape() && SameStreams() && (Honest(|levels|) ==> ok)
      ensures ok ==> Valid() && Here() == old(Here()) + left0 <= |base| && s == base[old(Here())..Here()]
    {
      hide Fits, Good, Prefix, Reach, Honest;
      var t := |levels| - 1;
      ghost var start := Here();
      WindowIsWithin();
      var left := left0;
      s := [];
      while left > levels[t].end - levels[t].loc
        invariant Valid() && SameStreams() && left >= 0 && Here() + left == start + left0 && start <= Here() <= |base|
        invariant s == base[start..Here()] && (left > 0 ==> levels[t].loc < levels[t].end || Here() == start)
        decreases left, if levels[t].loc < levels[t].end then 0 else 1
      {
        WindowIsWithin();
        ghost var here := Here();
        left := left - (levels[t].end - levels[t].loc);
        var bytes;
        ok, bytes := TakeWhole();
        if !ok {
          return;
        }
        Join(base, start, here, Here());
        s := s + bytes;
      }
      WindowIsWithin();
      ghost var here := Here();
      var bytes := TakeBytes(left);
      Join(base, start, here, Here());
      s := s + bytes;
      ok := true;
    }

    /** The next len bytes, or all that are left. Bytes that some enclosing stream does not have are never
        delivered: it throws. With 2^31 bytes or more left it cannot be used. */
    method Read(len: nat) returns (r: Reading)
      requires Valid() && |levels| > 0 && len < HALF
      modifies `levels, `at, `pos, buffer
      ensures Shape() && SameStreams() && (r.BadCopy? <==> End() - old(Here()) >= HALF)
      ensures r.BadCopy? ==> r.count == End() - old(Here()) - WORD < 0
      ensures Honest(|levels|) ==> !r.Thrown?
      ensures r.Copied? ==>
                Valid() && Here() == (if len < End() - old(Here()) then old(Here()) + len else End()) <= Reach(|levels|)
      ensures r.Copied? ==> old(Here()) <= Here() <= |base| && r.bytes == base[old(Here())..Here()]
      ensures Honest(|levels| - 1) && End() - old(Here()) <= len ==> (r.Copied? <==> End() <= Limit(|levels| - 1))
    {
      hide Fits, Good, Prefix, Reach, Honest;
      var t := |levels| - 1;
      WindowIsWithin();
      if Honest(t) {
        InnermostReach();
      }
      var canRead := Signed(levels[t].total - (levels[t].loc - levels[t].begin));
      if canRead >= len {
        canRead := len;
      }
      if canRead < 0 {
        return BadCopy(canRead);
      }
      var ok, s := ReadLeft(canRead);
      if !ok {
        return Thrown;
      }
      WindowIsWithin();
      r := Copied(s);
    }

    lemma LevelIsWithin(k: nat)
      requires Shape() && k < |levels| && Prefix(k + 1)
      ensures Prefix(k) && Next(k) <= Reach(k) <= |base| &&
              Reach(k + 1) == if stop[k] < Reach(k) then stop[k] else Reach(k)
      ensures var l := levels[k];
              && l.begin <= l.loc <= l.end <= SIZE && l.end - l.begin <= l.total < WORD
              && at[k] + (l.end - l.loc) == Next(k) <= stop[k] == at[k] + l.total - (l.loc - l.begin)
              && (Next(k) == stop[k] || l.end == SIZE)
    {
      hide Fits;
      assert Good(k);
      WithinReach(k);
      WindowBounds(buffer[..], base, levels[k], at[k], Next(k), stop[k]);
    }

    /** Every stream that a skip comes to, on its way down, has fewer than 2^31 bytes left. */
    ghost predicate Skippable(k: nat, len: nat)
      requires Shape() && k < |levels|
      reads this
      decreases k
    {
      var left := stop[k] as int - at[k];
      var n := if left > len then len else left;
      && left < HALF
      && (k > 0 && n > levels[k].end - levels[k].loc >= 0 ==> Skippable(k - 1, n - (levels[k].end - levels[k].loc)))
    }

    /** So it is where no stream has more. */
    lemma {:induction false} ShortIsSkippable(k: nat, len: nat)
      requires Shape() && k < |levels| && forall j :: 0 <= j <= k ==> stop[j] - at[j] < HALF
      ensures Skippable(k, len)
      decreases k
    {
      var left, held := stop[k] as int - at[k], levels[k].end - levels[k].loc;
      var n := if left > len then len else left;
      if k > 0 && n > held >= 0 {
        ShortIsSkippable(k - 1, n - held);
      }
    }

    /** The cursor of a stream has come to lie in front of its window. */
    ghost predicate Lost(k: nat)
      requires k < |levels|
      reads `levels
    {
      exists j :: 0 <= j <= k && levels[j].loc < levels[j].begin
    }

    lemma IsLost(k: nat)
      requires k < |levels| && levels[k].loc < levels[k].begin
      ensures Lost(k)
    {
    }

    /** skip: over the rest of the window, and then over bytes of the parent or of the base, as far as they
        have any. A stream with 2^31 bytes or more left moves its cursor back instead. */
    method SkipAt(k: nat, len: nat) returns (n: int)
      requires Shape() && k < |levels| && Prefix(k + 1) && len < HALF
      modifies `levels, `at, `pos
      ensures Shape() && |levels| == |old(levels)|
      ensures old(Skippable(k, len)) ==> Prefix(k + 1) && at[k] == old(at)[k] + n
      ensures old(Skippable(k, len)) ==>
                at[k] == if old(at)[k] + len < Reach(k + 1) then old(at)[k] + len else Reach(k + 1)
      ensures !old(Skippable(k, len)) ==> Lost(k)
      ensures old(at)[k] + HALF <= stop[k] ==> n == stop[k] - old(at)[k] - WORD
      ensures forall j :: k < j < |levels| ==> levels[j] == old(levels)[j] && at[j] == old(at)[j]
      decreases k
    {
      hide Fits, Good, Prefix, Reach, Lost;
      LevelIsWithin(k);
      var l := levels[k];
      n := Signed(l.total - (l.loc - l.begin));
      if n > len {
        n := len;
      }
      var held := l.end - l.loc;
      if n > held {
        var skipped: int := n - held;
        if k == 0 {
          skipped := SkipBase(skipped);
        } else {
          skipped := SkipAt(k - 1, skipped);
        }
        n := skipped + held;
        ghost var fine := old(Skippable(k, len));
        SetSkipped(k, l, skipped, fine);
      } else if n < 0 {
        levels := levels[k := l.(loc := l.loc + n)];
        IsLost(k);
      } else {
        MoveAt(k, n);
      }
    }

    /** skip of the base, up to its end. */
    method SkipBase(len: nat) returns (n: nat)
      requires Shape()
      modifies `pos
      ensures Shape() && Prefix(0) && pos == old(pos) + n &&
              pos == if old(pos) + len < |base| then old(pos) + len else |base|
      ensures Reach(0) == |base|
    {
      n := if len < |base| - pos then len else |base| - pos;
      pos := pos + n;
    }

    method MoveAt(k: nat, n: nat)
      requires Shape() && k < |levels| && Prefix(k + 1) && n <= levels[k].end - levels[k].loc
      modifies `levels, `at
      ensures Shape() && |levels| == |old(levels)| && Prefix(k + 1) && at[k] == old(at)[k] + n
      ensures levels[k] == old(levels)[k].(loc := old(levels)[k].loc + n)
      ensures forall j :: k < j < |levels| ==> levels[j] == old(levels)[j] && at[j] == old(at)[j]
    {
      assert Good(k);
      var l := levels[k];
      MoveWindow(buffer[..], base, l, at[k], Next(k), stop[k], n);
      levels := levels[k := l.(loc := l.loc + n)];
      at := at[k := at[k] + n];
      assert Good(k);
      assert forall j :: 0 <= j < k ==> old(Good(j)) ==> Good(j);
    }

    /** The cursor goes to the end of the window; what the parent has skipped is delivered. */
    method SetSkipped(k: nat, l: Level, skipped: int, ghost fine: bool)
      requires Shape() && k < |levels| && l.begin <= l.loc <= l.end <= SIZE && l.total < WORD
      requires if fine then Skipped(k, l, skipped) else k > 0 && Lost(k - 1)
      modifies `levels, `at
      ensures Shape() && |levels| == |old(levels)|
      ensures if fine then Prefix(k + 1) && at[k] == old(at)[k] + (l.end - l.loc) + skipped else Lost(k)
      ensures forall j :: k < j < |levels| ==> levels[j] == old(levels)[j] && at[j] == old(at)[j]
    {
      levels := levels[k := l.(loc := l.end, total := (l.total - skipped) % WORD)];
      if fine {
        at := at[k := at[k] + (l.end - l.loc) + skipped];
        assert Good(k);
        assert forall j :: 0 <= j < k ==> old(Good(j)) ==> Good(j);
      } else {
        assert forall j :: 0 <= j < k ==> levels[j] == old(levels)[j];
      }
    }

    /** What enclosing streams and the stream itself have done before that. */
    ghost predicate Skipped(k: nat, l: Level, skipped: int)
      requires Shape() && k < |levels|
      reads this, buffer
    {
      && Prefix(k) && skipped >= 0 && at[k] + (l.end - l.loc) + skipped == Next(k) <= |base|
      && at[k] + l.total - (l.loc - l.begin) == stop[k] && l.total > l.end - l.begin && l.end == SIZE
      && Next(k) <= stop[k]
    }

    /** The number of bytes skipped, as the code returns it. It is right, and the streams stay so, if and
        only if the skip comes to no stream with 2^31 bytes or more left. */
    method Skip(len: nat) returns (n: int)
      requires Valid() && |levels| > 0 && len < HALF
      modifies `levels, `at, `pos
      ensures Shape() && SameStreams() && (Valid() <==> old(Skippable(|levels| - 1, len)))
      ensures old(Here()) + HALF <= End() ==> n == End() - old(Here()) - WORD
      ensures Valid() ==> Here() == old(Here()) + n
      ensures Valid() ==> Here() == if old(Here()) + len < Reach(|levels|) then old(Here()) + len else Reach(|levels|)
    {
      n := SkipAt(|levels| - 1, len);
      if Lost(|levels| - 1) {
        LostIsNotValid();
      }
    }

    lemma LostIsNotValid()
      requires Shape() && |levels| > 0 && Lost(|levels| - 1)
      ensures !Valid()
    {
      var j :| 0 <= j < |levels| && levels[j].loc < levels[j].begin;
      assert !Good(j);
    }

    // ----- Varints ---------------------------------------------------------------------------------

    /** The inner loop: groups from the window, until one is marked. */
    method Scan(max: nat, sum0: nat, count0: nat, scale0: nat, ghost start: nat)
      returns (done: bool, sum: nat, count: nat, scale: nat)
      requires Valid() && |levels| > 0 && start + count0 == Here() <= |base| && count0 <= max
      requires sum0 == Varint.Sum(base[start..Here()]) && scale0 == Varint.Power(count0)
      requires forall i :: start <= i < Here() ==> base[i] < 128
      modifies `levels, `at
      ensures Valid() && SameStreams() && start + count == Here() <= |base| && count0 <= count <= max
      ensures sum == Varint.Sum(base[start..Here()])
      ensures done ==> count > 0 && base[Here() - 1] >= 128 && forall i :: start <= i < Here() - 1 ==> base[i] < 128
      ensures !done ==> scale == Varint.Power(count) && (forall i :: start <= i < Here() ==> base[i] < 128)
      ensures !done ==> count == max || levels[|levels| - 1].loc == levels[|levels| - 1].end
      ensures count0 < max && old(levels)[|levels| - 1].loc < old(levels)[|levels| - 1].end ==> count > count0
    {
      hide Fits, Varint.Sum, Varint.Power;
      var t := |levels| - 1;
      WindowIsNext();
      done, sum, count, scale := false, sum0, count0, scale0;
      while levels[t].loc < levels[t].end && count < max
        invariant Valid() && SameStreams() && start + count == Here() <= |base| && count0 <= count <= max
        invariant sum == Varint.Sum(base[start..Here()]) && scale == Varint.Power(count)
        invariant levels[t].loc <= levels[t].end && (count == count0 ==> levels[t] == old(levels)[t])
        invariant forall i :: start <= i < Here() ==> base[i] < 128
        decreases max - count
      {
        WindowIsNext();
        var b := buffer[levels[t].loc];
        ghost var here := Here();
        assert b == base[here];
        AddGroup(base, start, here);
        sum := sum + b % 128 * scale;
        Advance(1);
        count := count + 1;
        if b >= 128 {
          done := true;
          return;
        }
        Varint.NextPower(count - 1);
        scale := 128 * scale;
      }
    }

    /** Groups from one window after another, until one is marked, max have been seen or the stream ends. */
    method ScanAll(max: nat) returns (ok: bool, done: bool, sum: nat, count: nat)
      requires Valid() && |levels| > 0 && Here() < End() && max > 0
      modifies `levels, `at, `pos, buffer
      ensures Shape() && SameStreams() && (Honest(|levels|) ==> ok)
      ensures ok ==> Valid() && old(Here()) + count == Here() <= |base| && count <= max
      ensures ok ==> count > 0 && sum == Varint.Sum(base[old(Here())..Here()])
      ensures ok && done ==> base[Here() - 1] >= 128 && forall i :: old(Here()) <= i < Here() - 1 ==> base[i] < 128
      ensures ok && !done ==> count == max || Here() == End()
      ensures ok && !done ==> forall i :: old(Here()) <= i < Here() ==> base[i] < 128
    {
      hide Fits, Good, Prefix, Reach, Honest, Varint.Sum, Varint.Power;
      var t := |levels| - 1;
      ghost var start := Here();
      Varint.NoGroups();
      WindowIsWithin();
      assert base[start..start] == [];
      done, sum, count := false, 0, 0;
      if levels[t].loc == levels[t].end {
        ok := Refill();
        if !ok {
          return;
        }
      }
      WindowIsWithin();
      var scale;
      done, sum, count, scale := Scan(max, sum, count, 1, start);
      while !done && count < max && levels[t].end - levels[t].begin < levels[t].total
        invariant Valid() && SameStreams() && start + count == Here() <= |base| && 0 < count <= max
        invariant sum == Varint.Sum(base[start..Here()])
        invariant done ==> base[Here() - 1] >= 128 && forall i :: start <= i < Here() - 1 ==> base[i] < 128
        invariant !done ==> scale == Varint.Power(count) && (forall i :: start <= i < Here() ==> base[i] < 128)
        invariant !done ==> count == max || levels[t].loc == levels[t].end
        decreases !done, max - count
      {
        WindowIsWithin();
        ok := Refill();
        if !ok {
          return;
        }
        WindowIsWithin();
        done, sum, count, scale := Scan(max, sum, count, scale, start);
      }
      WindowIsWithin();
      ok := true;
    }

    /** ReadVarint, straight from the window when it is long enough and across refills when it is not.
        The caller makes sure that at least one byte is promised. */
    method ReadVarint(max: nat, width: nat) returns (ok: bool, r: Varint.Result)
      requires Valid() && |levels| > 0 && Here() < End() && max > 0 && width > 0
      modifies `levels, `at, `pos, buffer
      ensures Shape() && SameStreams() && (Honest(|levels|) ==> ok) && (ok ==> Valid())
      ensures ok ==>
                old(Here()) < Reach(|levels|) <= |base| &&
                r == Varint.Decode(base[old(Here())..Reach(|levels|)], max, width)
      ensures ok && r.Value? ==> Here() == old(Here()) + r.length
    {
      hide Fits, Good, Prefix, Reach, Honest, Varint.Sum, Varint.Power, Varint.Decode;
      ghost var start := Here();
      var done, sum, count;
      ok, done, sum, count := ScanAll(max);
      r := Varint.Corrupted;
      if ok {
        WindowIsWithin();
        Decoded(base, start, Here(), Reach(|levels|), max, width, done);
        r := if done then Varint.Value(sum % width, count) else Varint.Corrupted;
      }
    }
  }

  method OneStream(base: seq<Byte>, len: nat) returns (nest: Nest)
    requires len < WORD && len <= |base|
    ensures fresh(nest) && fresh(nest.buffer) && nest.Valid() && |nest.levels| == 1 && |nest.at| == |nest.stop| == 1
    ensures nest.Here() == 0 && nest.End() == len
  {
    nest := new Nest(base);
    var ok := nest.Push(len);
  }

  /** Input on which read and skip fail: any stream of 2^31 bytes or more, asked for any number of bytes,
      although all that it promises is there. */
  method LongStream(base: seq<Byte>, len: nat, asked: nat) returns (r: Reading, n: int)
    requires HALF <= len < WORD && len <= |base| && asked < HALF
    ensures r == BadCopy(len - WORD) && n == len - WORD < 0
  {
    hide Nest.Valid, Nest.Skippable;
    var nest := OneStream(base, len);
    r := nest.Read(asked);
    nest := OneStream(base, len);
    n := nest.Skip(asked);
  }

  lemma AddGroup(base: seq<Byte>, start: nat, here: nat)
    requires start <= here < |base|
    ensures Varint.Sum(base[start..here + 1]) ==
            Varint.Sum(base[start..here]) + base[here] % 128 * Varint.Power(here - start)
  {
    var s := base[start..here + 1];
    Varint.SumLast(s, here - start);
    assert s[..here - start] == base[start..here] && s[..here - start + 1] == s;
  }

  /** What the loops have seen decides what the bytes decode to. */
  lemma Decoded(base: seq<Byte>, start: nat, here: nat, end: nat, max: nat, width: nat, done: bool)
    requires start <= here <= end <= |base| && here - start <= max && width > 0
    requires done ==> here > start && base[here - 1] >= 128 && forall i :: start <= i < here - 1 ==> base[i] < 128
    requires !done ==> (here - start == max || here == end) && forall i :: start <= i < here ==> base[i] < 128
    ensures Varint.Decode(base[start..end], max, width) ==
            if done then Varint.Value(Varint.Sum(base[start..here]) % width, here - start) else Varint.Corrupted
  {
    hide Varint.Sum, Varint.Marked;
    var s := base[start..end];
    if done {
      Varint.MarkedIsUnique(s, max, here - start - 1);
      assert s[..here - start] == base[start..here];
    } else {
      Varint.MarkedIsUnique(s, max, here - start);
    }
  }

  lemma Join(base: seq<Byte>, a: nat, b: nat, c: nat)
    requires a <= b <= c <= |base|
    ensures base[a..b] + base[b..c] == base[a..c]
  {
  }

  lemma Parts(s: seq<Byte>, i: nat, j: nat, n: nat)
    requires i + n <= j <= |s|
    ensures s[i..i + n] == s[i..j][..n] && s[i + n..j] == s[i..j][n..]
  {
  }

  lemma MoveWindow(b: seq<Byte>, base: seq<Byte>, l: Level, at: nat, next: nat, stop: nat, n: nat)
    requires Fits(b, base, l, at, next, stop) && n <= l.end - l.loc
    ensures Fits(b, base, l.(loc := l.loc + n), at + n, next, stop)
  {
    Parts(b, l.loc, l.end, n);
    Parts(base, at, next, n);
  }

  lemma WindowBounds(b: seq<Byte>, base: seq<Byte>, l: Level, at: nat, next: nat, stop: nat)
    requires Fits(b, base, l, at, next, stop)
    ensures l.begin <= l.loc <= l.end <= SIZE && l.end - l.begin <= l.total < WORD
    ensures at + (l.end - l.loc) == next <= stop == at + l.total - (l.loc - l.begin)
    ensures next == stop || l.end == SIZE
  {
  }

  lemma SplitWindow(b: seq<Byte>, base: seq<Byte>, p: Level, at: nat, next: nat, stop: nat, n: nat, end: nat,
      total: nat)
    requires Fits(b, base, p, at, next, stop) && n <= p.end - p.loc && n <= total < WORD && at + total == end
    requires n < total ==> n == p.end - p.loc && p.end == SIZE
    ensures Fits(b, base, Level(p.loc, p.loc, p.loc + n, total), at, at + n, end)
    ensures Fits(b, base, p.(loc := p.loc + n), at + n, next, stop)
  {
    Parts(b, p.loc, p.end, n);
    Parts(base, at, next, n);
  }
}
