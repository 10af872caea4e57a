/**
 What the receiver's bitmap, count and frontier stand for: a finite set of chunk
 numbers. The O(1) tests of src/lib/recv.rs are shown equal to the quantified
 facts they replace.
 */
module ChunkSets {
  import opened Wire

  // ---------- The bitmap ----------

  const WORD_BITS: nat := 64

  function Mask(bit: nat): bv64
    requires bit < WORD_BITS
  {
    1 << (bit as bv7)
  }

  predicate Overlaps(word: bv64, mask: bv64) {
    word & mask != 0
  }

  function Join(word: bv64, mask: bv64): bv64 {
    word | mask
  }

  predicate IsSet(words: seq<bv64>, i: nat)
    requires i < WORD_BITS * |words|
  {
    Overlaps(words[i / WORD_BITS], Mask(i % WORD_BITS))
  }

  function SetBit(words: seq<bv64>, i: nat): seq<bv64>
    requires i < WORD_BITS * |words|
  {
    words[i / WORD_BITS := Join(words[i / WORD_BITS], Mask(i % WORD_BITS))]
  }

  // The bitmap stands for the set `got`: every bit counts, the spare ones of the
  // last word included.
  ghost predicate Represents(words: seq<bv64>, got: set<nat>) {
    (forall i: nat {:trigger IsSet(words, i)} | i < WORD_BITS * |words| :: IsSet(words, i) <==> i in got) &&
    (forall i | i in got :: i < WORD_BITS * |words|)
  }

  // It stands for one set only.
  lemma RepresentsUnique(words: seq<bv64>, a: set<nat>, b: set<nat>)
    requires Represents(words, a) && Represents(words, b)
    ensures a == b
  {
    forall i: nat ensures i in a <==> i in b {
      if i < WORD_BITS * |words| {
        assert IsSet(words, i) || !IsSet(words, i);
      }
    }
  }

  // Masks and words are passed by name below: the solver then relates them by
  // equality and does not expand them bit by bit.

  lemma ShiftExact(i: nat)
    requires i < WORD_BITS
    ensures i as bv7 as int == i
  {}

  lemma ShiftSmall(i: nat)
    requires i < WORD_BITS
    ensures i as bv7 < 64
  {}

  lemma ShiftInjective(i: nat, j: nat)
    requires i < WORD_BITS && j < WORD_BITS && i != j
    ensures i as bv7 != j as bv7
  {
    ShiftExact(i);
    ShiftExact(j);
  }

  lemma SingleBits(p: bv7, q: bv7, m: bv64, n: bv64)
    requires p < 64 && q < 64 && m == 1 << p && n == 1 << q
    ensures m != 0
    ensures p != q ==> m & n == 0
  {}

  lemma MasksSeparate(a: nat, b: nat, m: bv64, n: bv64)
    requires a < WORD_BITS && b < WORD_BITS && m == Mask(a) && n == Mask(b)
    ensures m != 0
    ensures a != b ==> m & n == 0
  {
    var p, q := a as bv7, b as bv7;
    ShiftSmall(a);
    ShiftSmall(b);
    if a != b {
      ShiftInjective(a, b);
    }
    SingleBits(p, q, m, n);
  }

  lemma OrKeepsOthers(word: bv64, m: bv64, n: bv64)
    requires m & n == 0
    ensures (word | m) & n == word & n
  {}

  lemma OrSets(word: bv64, m: bv64)
    requires m != 0
    ensures (word | m) & m != 0
  {}

  lemma JoinKeepsOthers(word: bv64, m: bv64, n: bv64, joined: bv64)
    requires m & n == 0 && joined == word | m
    ensures Overlaps(joined, n) <==> Overlaps(word, n)
  {
    OrKeepsOthers(word, m, n);
  }

  lemma JoinSets(word: bv64, m: bv64, joined: bv64)
    requires m != 0 && joined == word | m
    ensures Overlaps(joined, m)
  {
    OrSets(word, m);
  }

  lemma WordExact(word: bv64, a: nat, b: nat, m: bv64, n: bv64, joined: bv64)
    requires a < WORD_BITS && b < WORD_BITS && m == Mask(a) && n == Mask(b)
    requires joined == Join(word, m)
    ensures Overlaps(joined, n) <==> a == b || Overlaps(word, n)
  {
    MasksSeparate(a, b, m, n);
    if a == b {
      JoinSets(word, m, joined);
    } else {
      JoinKeepsOthers(word, m, n, joined);
    }
  }

  // Setting one bit changes no other, in its own word or elsewhere.
  lemma SetBitAt(words: seq<bv64>, i: nat, j: nat, after: seq<bv64>)
    requires i < WORD_BITS * |words| && j < WORD_BITS * |words|
    requires after == SetBit(words, i)
    ensures IsSet(after, j) <==> j == i || IsSet(words, j)
  {
    if i / WORD_BITS == j / WORD_BITS {
      var word, m, n, joined := words[i / WORD_BITS], Mask(i % WORD_BITS), Mask(j % WORD_BITS), after[i / WORD_BITS];
      WordExact(word, i % WORD_BITS, j % WORD_BITS, m, n, joined);
    }
  }

  // Setting a bit adds its chunk to the set, and nothing else.
  lemma SetBitExact(words: seq<bv64>, got: set<nat>, i: nat)
    requires Represents(words, got) && i < WORD_BITS * |words|
    ensures Represents(SetBit(words, i), got + {i})
  {
    var after := SetBit(words, i);
    forall j: nat | j < WORD_BITS * |words| ensures IsSet(after, j) <==> j in got + {i} {
      SetBitAt(words, i, j, after);
      assert IsSet(words, j) <==> j in got;
    }
  }

  // ---------- One bitmap for each set ----------

  const ALL_ONES: bv64 := 0xFFFF_FFFF_FFFF_FFFF

  lemma PlusOne(p: bv7)
    requires p < 63
    ensures (p + 1) as int == p as int + 1
  {}

  lemma SameNumber(p: bv7, q: bv7)
    requires p as int == q as int
    ensures p == q
  {}

  lemma ShiftNext(i: nat, p: bv7, q: bv7)
    requires i + 1 < WORD_BITS && p as int == i && q as int == i + 1 && p < 63
    ensures q == p + 1
  {
    PlusOne(p);
    SameNumber(q, p + 1);
  }

  lemma SingleBitAnd(p: bv7, m: bv64, word: bv64)
    requires p < 64 && m == 1 << p
    ensures word & m == 0 || word & m == m
  {}

  lemma LowBitsGrow(p: bv7, q: bv7, m: bv64, n: bv64)
    requires p < 63 && q == p + 1 && m == 1 << p && n == 1 << q
    ensures n - 1 == (m - 1) | m
  {}

  lemma FirstMask(p: bv7, m: bv64)
    requires p == 0 && m == 1 << p
    ensures m - 1 == 0
  {}

  lemma LastMask(p: bv7, m: bv64)
    requires p == 63 && m == 1 << p
    ensures (m - 1) | m == ALL_ONES
  {}

  predicate Agree(a: bv64, b: bv64, mask: bv64) {
    a & mask == b & mask
  }

  lemma AgreeOnMore(a: bv64, b: bv64, low: bv64, m: bv64, more: bv64)
    requires Agree(a, b, low) && Agree(a, b, m) && more == Join(low, m)
    ensures Agree(a, b, more)
  {}

  lemma AgreeNowhere(a: bv64, b: bv64)
    ensures Agree(a, b, 0)
    ensures Agree(a, b, ALL_ONES) ==> a == b
  {}

  lemma SameBitAgrees(a: bv64, b: bv64, i: nat, m: bv64)
    requires i < WORD_BITS && m == Mask(i) && (Overlaps(a, m) <==> Overlaps(b, m))
    ensures Agree(a, b, m)
  {
    ShiftSmall(i);
    SingleBitAnd(i as bv7, m, a);
    SingleBitAnd(i as bv7, m, b);
  }

  // The bits below `i`.
  function LowBits(i: nat): bv64
    requires i <= WORD_BITS
  {
    if i == WORD_BITS then ALL_ONES else Mask(i) - 1
  }

  lemma LowBitsStep(i: nat, m: bv64, low: bv64, more: bv64)
    requires i < WORD_BITS && m == Mask(i) && low == LowBits(i) && more == LowBits(i + 1)
    ensures more == Join(low, m)
    ensures i == 0 ==> low == 0
  {
    ShiftSmall(i);
    ShiftExact(i);
    var p := i as bv7;
    if i == 0 {
      FirstMask(p, m);
    }
    if i + 1 == WORD_BITS {
      LastMask(p, m);
    } else {
      var q := (i + 1) as bv7;
      ShiftExact(i + 1);
      ShiftSmall(i + 1);
      ShiftNext(i, p, q);
      LowBitsGrow(p, q, m, Mask(i + 1));
    }
  }

  // Words that agree on every mask agree on all bits below it, and so on all.
  lemma {:induction false} LowBitsAgree(a: bv64, b: bv64, masks: seq<bv64>, lows: seq<bv64>, i: nat)
    requires |lows| == |masks| + 1 && i <= |masks| && lows[0] == 0
    requires forall k | 0 <= k < |masks| :: Agree(a, b, masks[k]) && lows[k + 1] == Join(lows[k], masks[k])
    ensures Agree(a, b, lows[i])
  {
    if i == 0 {
      AgreeNowhere(a, b);
    } else {
      LowBitsAgree(a, b, masks, lows, i - 1);
      assert lows[(i - 1) + 1] == Join(lows[i - 1], masks[i - 1]);
      AgreeOnMore(a, b, lows[i - 1], masks[i - 1], lows[i]);
    }
  }

  lemma WordsEqual(a: bv64, b: bv64)
    requires forall k: nat {:trigger Mask(k)} | k < WORD_BITS :: Overlaps(a, Mask(k)) <==> Overlaps(b, Mask(k))
    ensures a == b
  {
    var masks := seq(WORD_BITS, k requires 0 <= k < WORD_BITS => Mask(k));
    var lows := seq(WORD_BITS + 1, k requires 0 <= k <= WORD_BITS => LowBits(k));
    forall k | 0 <= k < WORD_BITS ensures Agree(a, b, masks[k]) && lows[k + 1] == Join(lows[k], masks[k]) {
      LowBitsStep(k, masks[k], lows[k], lows[k + 1]);
      SameBitAgrees(a, b, k, masks[k]);
    }
    LowBitsStep(0, masks[0], lows[0], lows[1]);
    LowBitsAgree(a, b, masks, lows, WORD_BITS);
    AgreeNowhere(a, b);
  }

  // And a set has one bitmap of each length: what arrived fixes every word.
  lemma BitmapUnique(a: seq<bv64>, b: seq<bv64>, got: set<nat>)
    requires Represents(a, got) && Represents(b, got) && |a| == |b|
    ensures a == b
  {
    forall k | 0 <= k < |a| ensures a[k] == b[k] {
      forall bit: nat | bit < WORD_BITS ensures Overlaps(a[k], Mask(bit)) <==> Overlaps(b[k], Mask(bit)) {
        BitOfWord(k, bit);
        assert IsSet(a, k * WORD_BITS + bit) <==> IsSet(b, k * WORD_BITS + bit);
      }
      WordsEqual(a[k], b[k]);
    }
  }

  lemma BitOfWord(k: nat, bit: nat)
    requires bit < WORD_BITS
    ensures (k * WORD_BITS + bit) / WORD_BITS == k && (k * WORD_BITS + bit) % WORD_BITS == bit
  {}

  lemma ZeroBitmapEmpty(words: seq<bv64>)
    requires forall k | 0 <= k < |words| :: words[k] == 0
    ensures Represents(words, {})
  {}

  // ---------- Frontier and gaps ----------

  ghost function Below(n: nat): (s: set<nat>)
    ensures forall i: nat :: i in s <==> i < n
    ensures |s| == n
  {
    if n == 0 then {} else Below(n - 1) + {n - 1}
  }

  // One past the greatest element, 0 for the empty set.
  ghost predicate IsFrontier(s: set<nat>, f: nat) {
    (forall i | i in s :: i < f) && (f > 0 ==> f - 1 in s)
  }

  ghost function Frontier(s: set<nat>): (f: nat)
    ensures IsFrontier(s, f)
  {
    if s == {} then 0 else
      var x :| x in s;
      var rest := Frontier(s - {x});
      assert s == (s - {x}) + {x};
      if rest > x + 1 then rest else x + 1
  }

  lemma FrontierUnique(s: set<nat>, f: nat)
    requires IsFrontier(s, f)
    ensures f == Frontier(s)
  {
    var g := Frontier(s);
    if f > 0 { assert f - 1 < g; }
    if g > 0 { assert g - 1 < f; }
  }

  // `chunk` is missing although a later one arrived.
  ghost predicate GapAt(s: set<nat>, chunk: nat) {
    chunk !in s && exists later | later in s :: chunk < later
  }

  ghost predicate GapOpen(s: set<nat>) {
    exists chunk: nat :: GapAt(s, chunk)
  }

  // The receiver's `count < frontier` is exactly an open gap, and the count
  // never passes the frontier.
  lemma CountBelowFrontier(s: set<nat>)
    ensures |s| <= Frontier(s)
    ensures |s| < Frontier(s) <==> GapOpen(s)
  {
    var f := Frontier(s);
    SubsetSize(s, Below(f));
    if |s| < f {
      ShortfallIsGap(s, f);
    }
    if GapOpen(s) {
      GapIsShortfall(s, f);
    }
  }

  lemma ShortfallIsGap(s: set<nat>, f: nat)
    requires IsFrontier(s, f) && |s| < f
    ensures GapOpen(s)
  {
    SubsetSize(s, Below(f));
    var chunk :| chunk in Below(f) - s;
    assert chunk < f - 1;
    assert GapAt(s, chunk);
  }

  lemma GapIsShortfall(s: set<nat>, f: nat)
    requires IsFrontier(s, f) && GapOpen(s)
    ensures s != Below(f)
  {
    var chunk: nat :| GapAt(s, chunk);
    assert chunk in Below(f);
  }

  // The receiver's `count == total` is exactly having every chunk.
  lemma CountIsTotal(s: set<nat>, total: nat)
    requires s <= Below(total)
    ensures |s| == total <==> s == Below(total)
    ensures |s| <= total
  {
    SubsetSize(s, Below(total));
  }

  lemma SubsetSize(a: set<nat>, b: set<nat>)
    requires a <= b
    ensures |a| <= |b| && (|a| == |b| <==> a == b)
    ensures |b - a| == |b| - |a|
  {
    assert b == a + (b - a);
    assert |b| == |a| + |b - a|;
  }

  // ---------- Missing chunks ----------

  function MissingBelow(got: set<nat>, upto: u32): (missing: seq<u32>)
    ensures forall k | 0 <= k < |missing| :: missing[k] < upto
  {
    if upto == 0 then []
    else if upto - 1 in got then MissingBelow(got, upto - 1)
    else MissingBelow(got, upto - 1) + [upto - 1]
  }

  ghost predicate StrictlyIncreasing(xs: seq<u32>) {
    forall i, j | 0 <= i < j < |xs| :: xs[i] < xs[j]
  }

  function Elements(xs: seq<u32>): set<nat> {
    set x | x in xs
  }

  // The report lists each absent chunk below the bound once, in order.
  lemma MissingExact(got: set<nat>, upto: u32)
    ensures StrictlyIncreasing(MissingBelow(got, upto))
    ensures Elements(MissingBelow(got, upto)) == Below(upto) - got
    ensures |MissingBelow(got, upto)| == |Below(upto) - got|
  {
    MissingIncreasing(got, upto);
    DistinctSize(MissingBelow(got, upto));
    forall x: nat ensures x in Elements(MissingBelow(got, upto)) <==> x in Below(upto) - got {
      MissingMember(got, upto, x);
    }
  }

  lemma {:induction false} MissingIncreasing(got: set<nat>, upto: u32)
    ensures StrictlyIncreasing(MissingBelow(got, upto))
  {
    if upto > 0 {
      MissingIncreasing(got, upto - 1);
    }
  }

  lemma {:induction false} MissingMember(got: set<nat>, upto: u32, x: nat)
    ensures x in MissingBelow(got, upto) <==> x < upto && x !in got
  {
    if upto > 0 {
      MissingMember(got, upto - 1, x);
    }
  }

  // A list without repetitions is as long as its set of elements.
  lemma {:induction false} DistinctSize(xs: seq<u32>)
    requires forall i, j | 0 <= i < j < |xs| :: xs[i] != xs[j]
    ensures |Elements(xs)| == |xs|
  {
    if xs != [] {
      var n := |xs| - 1;
      var front, last := xs[..n], xs[n];
      DistinctSize(front);
      ElementsSnoc(front, last);
      assert front + [last] == xs;
    }
  }

  lemma ElementsSnoc(xs: seq<u32>, x: u32)
    ensures Elements(xs + [x]) == Elements(xs) + {x}
  {
    assert (xs + [x])[|xs|] == x;
  }

  // A report up to the frontier has `frontier - count` entries, so one made
  // while a gap is open is never empty.
  lemma MissingBelowFrontier(got: set<nat>, f: u32)
    requires IsFrontier(got, f)
    ensures |MissingBelow(got, f)| == f - |got|
    ensures GapOpen(got) <==> MissingBelow(got, f) != []
  {
    FrontierUnique(got, f);
    MissingExact(got, f);
    assert got <= Below(f);
    SubsetSize(got, Below(f));
    CountBelowFrontier(got);
  }
}
