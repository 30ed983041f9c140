/** The output queue over all write cycles of a connection.

    Posting may happen at any time. A write cycle moves the output queue aside, writes packets from
    the private queue and merges the rest back; timeouts are collected between cycles, since both
    hold the component's lock. */
module PacketQueueRuns {
  import opened PacketQueues

  /** posted and left record every packet accepted and every packet taken out, in order. */
  datatype State = State(output: seq<Entry>, mine: seq<Entry>, writing: bool, next: nat,
                         posted: seq<Entry>, left: seq<Entry>)

  datatype Step = Post(expire: int) | BeginWrite | WriteOne | EndWrite | Timeout(now: int)

  predicate Init(s: State) {
    s == State([], [], false, 0, [], [])
  }

  predicate Enabled(s: State, a: Step) {
    match a
    case Post(_) => true
    case BeginWrite => !s.writing
    case WriteOne => s.writing && |s.mine| > 0
    case EndWrite => s.writing
    case Timeout(_) => !s.writing
  }

  function Exec(s: State, a: Step): State
    requires Enabled(s, a)
  {
    match a
    case Post(expire) =>
      var e := Entry(expire, s.next);
      s.(output := Insert(s.output, e), next := s.next + 1, posted := s.posted + [e])
    case BeginWrite => s.(mine := Merge(s.mine, s.output), output := [], writing := true)
    case WriteOne => s.(mine := s.mine[1..], left := s.left + [s.mine[0]])
    case EndWrite => s.(output := Merge(s.output, s.mine), mine := [], writing := false)
    case Timeout(now) =>
      var k := DueBy(s.output, now - 1);
      s.(output := s.output[k..], left := s.left + s.output[..k])
  }

  /** By deadline, and in posting order among equal deadlines. */
  predicate Before(d: Entry, e: Entry) {
    d.expire < e.expire || (d.expire == e.expire && d.stamp < e.stamp)
  }

  predicate Ordered(s: seq<Entry>) {
    forall i, j :: 0 <= i < j < |s| ==> Before(s[i], s[j])
  }

  predicate OlderThan(ds: seq<Entry>, es: seq<Entry>) {
    forall i, j :: 0 <= i < |ds| && 0 <= j < |es| ==> ds[i].stamp < es[j].stamp
  }

  predicate StampsBelow(s: seq<Entry>, n: nat) {
    forall i :: 0 <= i < |s| ==> s[i].stamp < n
  }

  /** Nothing that left comes after a packet of the same deadline that is still here. */
  predicate LeftInTurn(left: seq<Entry>, here: seq<Entry>) {
    forall i, j :: 0 <= i < |left| && 0 <= j < |here| && left[i].expire == here[j].expire ==>
      left[i].stamp < here[j].stamp
  }

  /** Packets with equal deadlines left in the order in which they were posted. */
  predicate FifoAmongEquals(left: seq<Entry>) {
    forall i, j :: 0 <= i < j < |left| && left[i].expire == left[j].expire ==> left[i].stamp < left[j].stamp
  }

  predicate Inv(s: State) {
    && Ordered(s.output) && Ordered(s.mine) && OlderThan(s.mine, s.output)
    && StampsBelow(s.output, s.next) && StampsBelow(s.mine, s.next) && StampsBelow(s.left, s.next)
    && (!s.writing ==> s.mine == [])
    && LeftInTurn(s.left, s.output) && LeftInTurn(s.left, s.mine) && FifoAmongEquals(s.left)
    && multiset(s.posted) == multiset(s.output) + multiset(s.mine) + multiset(s.left)
  }

  /** A new packet is younger than all others, so its place behind equal deadlines keeps the order. */
  lemma InsertKeepsOrdered(s: seq<Entry>, e: Entry)
    requires Ordered(s) && StampsBelow(s, e.stamp)
    ensures Ordered(Insert(s, e)) && multiset(Insert(s, e)) == multiset(s) + multiset{e}
    ensures forall x :: x in Insert(s, e) <==> x in s || x == e
  {
    hide Ordered, StampsBelow;
    var k := DueBy(s, e.expire);
    assert s == s[..k] + s[k..];
    InsertedInOrder(s, e, k);
  }

  lemma InsertedInOrder(s: seq<Entry>, e: Entry, k: nat)
    requires Ordered(s) && StampsBelow(s, e.stamp) && k <= |s|
    requires (forall i :: 0 <= i < k ==> s[i].expire <= e.expire) && (k < |s| ==> s[k].expire > e.expire)
    ensures Ordered(s[..k] + [e] + s[k..])
  {
    var r := s[..k] + [e] + s[k..];
    forall i, j | 0 <= i < j < |r| ensures Before(r[i], r[j]) {
      if i < k < j || j < k {
        assert Before(s[i], s[if j < k then j else j - 1]);
      } else if k < i {
        assert Before(s[i - 1], s[j - 1]);
      } else if i == k && j > k + 1 {
        assert Before(s[k], s[j - 1]);
      }
    }
  }

  /** Merging back older packets in front of younger ones of the same deadline keeps the order. */
  lemma {:induction false} MergeKeepsOrdered(dest: seq<Entry>, src: seq<Entry>)
    requires Ordered(dest) && Ordered(src) && OlderThan(src, dest)
    ensures Ordered(Merge(dest, src))
    decreases |dest| + |src|
  {
    if |dest| == 0 || |src| == 0 {
    } else if dest[0].expire < src[0].expire {
      MergeKeepsOrdered(dest[1..], src);
      forall i | 0 <= i < |src| ensures Before(dest[0], src[i]) {
        assert i > 0 ==> Before(src[0], src[i]);
      }
      MergeMembers(dest[1..], src);
      var r := Merge(dest[1..], src);
      forall i | 0 <= i < |r| ensures Before(dest[0], r[i]) {
        assert r[i] in dest[1..] || r[i] in src;
      }
    } else {
      MergeKeepsOrdered(dest, src[1..]);
      forall i | 0 <= i < |dest| ensures Before(src[0], dest[i]) {
        assert i > 0 ==> Before(dest[0], dest[i]);
      }
      MergeMembers(dest, src[1..]);
      var r := Merge(dest, src[1..]);
      forall i | 0 <= i < |r| ensures Before(src[0], r[i]) {
        assert r[i] in dest || r[i] in src[1..];
      }
    }
  }

  lemma {:induction false} MergeMembers(dest: seq<Entry>, src: seq<Entry>)
    ensures forall i :: 0 <= i < |Merge(dest, src)| ==> Merge(dest, src)[i] in dest || Merge(dest, src)[i] in src
    decreases |dest| + |src|
  {
    if |dest| == 0 || |src| == 0 {
    } else if dest[0].expire < src[0].expire {
      MergeMembers(dest[1..], src);
    } else {
      MergeMembers(dest, src[1..]);
    }
  }

  /** getTimeoutList takes exactly the packets past their deadline. */
  lemma TimeoutTakesExactlyExpired(s: seq<Entry>, now: int, i: nat)
    requires Sorted(s) && i < |s|
    ensures s[i].expire < now <==> i < DueBy(s, now - 1)
  {
  }

  lemma PostKeepsInv(s: State, expire: int)
    requires Inv(s)
    ensures Inv(Exec(s, Post(expire)))
  {
    hide Insert;
    var e := Entry(expire, s.next);
    InsertKeepsOrdered(s.output, e);
    var r := Insert(s.output, e);
    forall i | 0 <= i < |r| ensures r[i] in s.output || r[i] == e {
      assert r[i] in r;
    }
  }

  lemma BeginWriteKeepsInv(s: State)
    requires Inv(s) && !s.writing
    ensures Inv(Exec(s, BeginWrite))
  {
  }

  lemma WriteOneKeepsInv(s: State)
    requires Inv(s) && s.writing && |s.mine| > 0
    ensures Inv(Exec(s, WriteOne))
  {
    assert s.mine == [s.mine[0]] + s.mine[1..];
  }

  lemma EndWriteKeepsInv(s: State)
    requires Inv(s) && s.writing
    ensures Inv(Exec(s, EndWrite))
  {
    hide Merge;
    MergeKeepsOrdered(s.output, s.mine);
    MergeMembers(s.output, s.mine);
    MergeCounts(s.output, s.mine);
  }

  /** Packets leave from the front in order, behind those that left before. */
  lemma FrontLeavesInTurn(left: seq<Entry>, here: seq<Entry>, k: nat)
    requires Ordered(here) && LeftInTurn(left, here) && k <= |here|
    ensures Ordered(here[k..]) && LeftInTurn(left + here[..k], here[k..])
  {
    var l := left + here[..k];
    forall i, j | 0 <= i < |l| && 0 <= j < |here[k..]| && l[i].expire == here[k..][j].expire
      ensures l[i].stamp < here[k..][j].stamp
    {
      if i >= |left| {
        assert Before(here[i - |left|], here[k + j]);
      }
    }
    forall i, j | 0 <= i < j < |here[k..]| ensures Before(here[k..][i], here[k..][j]) {
      assert Before(here[k + i], here[k + j]);
    }
  }

  lemma FrontLeavesFifo(left: seq<Entry>, here: seq<Entry>, k: nat)
    requires Ordered(here) && LeftInTurn(left, here) && FifoAmongEquals(left) && k <= |here|
    ensures FifoAmongEquals(left + here[..k])
  {
    var l := left + here[..k];
    forall i, j | 0 <= i < j < |l| && l[i].expire == l[j].expire ensures l[i].stamp < l[j].stamp {
      if i >= |left| {
        assert Before(here[i - |left|], here[j - |left|]);
      }
    }
  }

  lemma TimeoutKeepsInv(s: State, now: int)
    requires Inv(s) && !s.writing
    ensures Inv(Exec(s, Timeout(now)))
  {
    hide Ordered, LeftInTurn, FifoAmongEquals, DueBy, OlderThan;
    var k := DueBy(s.output, now - 1);
    assert s.output == s.output[..k] + s.output[k..];
    FrontLeavesInTurn(s.left, s.output, k);
    FrontLeavesFifo(s.left, s.output, k);
    NothingWaits(s.left + s.output[..k], s.output[k..]);
  }

  lemma NothingWaits(left: seq<Entry>, here: seq<Entry>)
    ensures LeftInTurn(left, []) && Ordered([]) && OlderThan([], here)
  {
  }

  lemma StepKeepsInv(s: State, a: Step)
    requires Inv(s) && Enabled(s, a)
    ensures Inv(Exec(s, a))
  {
    hide Inv;
    match a
    case Post(expire) => PostKeepsInv(s, expire);
    case BeginWrite => BeginWriteKeepsInv(s);
    case WriteOne => WriteOneKeepsInv(s);
    case EndWrite => EndWriteKeepsInv(s);
    case Timeout(now) => TimeoutKeepsInv(s, now);
  }

  predicate Run(ss: seq<State>, steps: seq<Step>) {
    && |ss| == |steps| + 1 && Init(ss[0])
    && (forall i :: 0 <= i < |steps| ==> Enabled(ss[i], steps[i]) && ss[i + 1] == Exec(ss[i], steps[i]))
  }

  lemma {:induction false} RunsKeepInv(ss: seq<State>, steps: seq<Step>)
    requires Run(ss, steps)
    ensures Inv(ss[|steps|])
  {
    var n := |steps|;
    if n > 0 {
      RunsKeepInv(ss[..n], steps[..n - 1]);
      StepKeepsInv(ss[n - 1], steps[n - 1]);
    }
  }

  /** Across all write cycles no packet is lost or duplicated, the queue stays in deadline order, and
      packets with equal deadlines leave in posting order. */
  lemma QueueIsFairOverAllRuns(ss: seq<State>, steps: seq<Step>)
    requires Run(ss, steps)
    ensures var s := ss[|steps|];
            && multiset(s.posted) == multiset(s.output) + multiset(s.mine) + multiset(s.left)
            && Sorted(s.output) && Sorted(s.mine)
            && FifoAmongEquals(s.left) && LeftInTurn(s.left, s.output) && LeftInTurn(s.left, s.mine)
  {
    RunsKeepInv(ss, steps);
  }

  /** In every run a timeout takes exactly the queued packets that are past their deadline, in their order,
      and leaves the others in theirs. */
  lemma TimeoutsTakeExpired(ss: seq<State>, steps: seq<Step>, i: nat, now: int)
    requires Run(ss, steps) && i < |steps| && steps[i] == Timeout(now)
    ensures var s, t := ss[i], ss[i + 1];
            exists due :: t.left == s.left + due && s.output == due + t.output &&
              (forall e :: e in due ==> e.expire < now) && (forall e :: e in t.output ==> e.expire >= now)
  {
    hide Inv, DueBy;
    RunsKeepInv(ss[..i + 1], steps[..i]);
    OutputIsSorted(ss[i]);
    var s, t := ss[i], ss[i + 1];
    assert Enabled(s, steps[i]) && t == Exec(s, steps[i]);
    var k := DueBy(s.output, now - 1);
    assert s.output == s.output[..k] + s.output[k..];
  }

  lemma OutputIsSorted(s: State)
    requires Inv(s)
    ensures Sorted(s.output)
  {
    forall i, j | 0 <= i < j < |s.output| ensures s.output[i].expire <= s.output[j].expire {
      assert Before(s.output[i], s.output[j]);
    }
  }
}
