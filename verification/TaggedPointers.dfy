/** Tagged pointers of the lock-free containers: a 48-bit address and a 16-bit tag in one word.

    The step system of the queue counts tags without bound and compares only their 16-bit images;
    this module relates the two. */
module TaggedPointers {

  const INVALID_TAG: nat := 0xdead
  const TAG_RANGE: nat := 0x10000

  /** Number of distinct valid tags; the tag sequence repeats with exactly this period. */
  const TAG_CYCLE: nat := 0xffff

  predicate IsTag(t: int) {
    0 <= t < TAG_RANGE && t != INVALID_TAG
  }

  /** 16-bit increment that steps over the invalid tag. */
  function NextTag(tag: nat): (t: nat)
    requires tag < TAG_RANGE
    ensures IsTag(t)
  {
    var u := (tag + 1) % TAG_RANGE;
    if u == INVALID_TAG then (u + 1) % TAG_RANGE else u
  }

  /** 16-bit decrement that steps over the invalid tag. */
  function PrevTag(tag: nat): (t: nat)
    requires tag < TAG_RANGE
    ensures IsTag(t)
  {
    var u := (tag + TAG_RANGE - 1) % TAG_RANGE;
    if u == INVALID_TAG then (u + TAG_RANGE - 1) % TAG_RANGE else u
  }

  /** The n-th tag of the sequence 0, 1, ..., 0xdeac, 0xdeae, ..., 0xffff, 0, ... */
  function TagOf(n: nat): (t: nat)
    ensures IsTag(t)
  {
    if n % 0xffff < 0xdead then n % 0xffff else n % 0xffff + 1
  }

  lemma QuotientIsUnique(n: int, q: int, r: int)
    requires n == q * 0xffff + r && 0 <= r < 0xffff
    ensures n / 0xffff == q && n % 0xffff == r
  {
  }

  /** Increment and decrement walk that sequence in both directions, across the wrap and the gap. */
  lemma TagsFollowSequence(n: nat)
    ensures NextTag(TagOf(n)) == TagOf(n + 1)
    ensures PrevTag(TagOf(n + 1)) == TagOf(n)
  {
    var q, r := n / 0xffff, n % 0xffff;
    if r + 1 == 0xffff {
      QuotientIsUnique(n + 1, q + 1, 0);
    } else {
      QuotientIsUnique(n + 1, q, r + 1);
    }
  }

  /** Inside one cycle the 16-bit comparison decides equality of the counts. */
  lemma WindowMakesTagsExact(m: nat, n: nat)
    requires m - n < TAG_CYCLE && n - m < TAG_CYCLE
    ensures TagOf(m) == TagOf(n) <==> m == n
  {
    if m % 0xffff == n % 0xffff {
      assert m - n == (m / 0xffff - n / 0xffff) * 0xffff;
    }
  }

  /** The window is tight: a count one full cycle away is indistinguishable. */
  lemma FullCycleAliases(n: nat)
    ensures TagOf(n + TAG_CYCLE) == TagOf(n)
  {
    QuotientIsUnique(n + 0xffff, n / 0xffff + 1, n % 0xffff);
  }
}

/** Packing of an address and its tag into one 64-bit word. */
module PointerPacking {

  /** x86-64 canonical addresses: the top 17 bits are all equal. */
  predicate Canonical(address: bv64) {
    || address & 0xffff_8000_0000_0000 == 0
    || address & 0xffff_8000_0000_0000 == 0xffff_8000_0000_0000
  }

  /** MakePointer overwrites the top 16 bits of the address with the tag. */
  function MakePointer(address: bv64, tag: bv64): (p: bv64)
    requires tag <= 0xffff
  {
    (address & 0x0000_ffff_ffff_ffff) | (tag << 48)
  }

  /** Comparing packed words, as every compare-and-swap does, compares address and tag together. */
  lemma PackedWordsCompareAsPairs(a: bv64, t: bv64, b: bv64, u: bv64)
    requires t <= 0xffff && u <= 0xffff
    requires Canonical(a) && Canonical(b)
    ensures MakePointer(a, t) == MakePointer(b, u) <==> a == b && t == u
  {
  }
}
