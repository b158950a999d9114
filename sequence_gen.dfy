/** Sequence generation: the tile indices `[0, tileCount)` are shuffled in
    place by Fisher–Yates, and a prefix of the shuffled array is kept. The
    random choice `Math.floor(Math.random() * (i + 1))` is an arbitrary
    `j` with `0 <= j <= i`. */
module SequenceGen {
  import opened IntMath

  /** `Math.min(tiles.length, 4 + level * 2)`. */
  function FlashCount(tileCount: nat, level: int): int {
    Min(tileCount, 4 + level * 2)
  }

  /** How many elements `array.slice(0, end)` keeps of an array of length
      `len`: a negative `end` counts back from the end of the array. */
  function SliceLength(len: nat, end: int): (k: nat)
    ensures k <= len
  {
    if end >= 0 then Min(len, end)
    else if len + end >= 0 then len + end
    else 0
  }

  /** The length of the sequence generated for a level on a grid. */
  function SequenceLength(tileCount: nat, level: int): nat {
    SliceLength(tileCount, FlashCount(tileCount, level))
  }

  /** Every entry is a tile of the grid and no tile appears twice. */
  ghost predicate DistinctTiles(s: seq<int>, tileCount: int) {
    && (forall k :: 0 <= k < |s| ==> 0 <= s[k] < tileCount)
    && (forall p, q :: 0 <= p < q < |s| ==> s[p] != s[q])
  }

  /** What `generateSequence` promises of its result. */
  ghost predicate FreshSequence(s: seq<int>, tileCount: nat, level: int) {
    |s| == SequenceLength(tileCount, level) && DistinctTiles(s, tileCount)
  }

  /** For every level from -2 up the length is `min(tileCount, 4 + 2 * level)`;
      below that the negative slice end takes tiles from the back instead. */
  lemma SequenceLengthOfLevel(tileCount: nat, level: int)
    requires level >= -2
    ensures SequenceLength(tileCount, level) == Min(tileCount, 4 + 2 * level)
  {
  }

  /** `[0, 1, …, n - 1]`, the `availableIndexes` before shuffling. */
  function Iota(n: nat): (s: seq<int>)
    ensures |s| == n
  {
    seq(n, k => k)
  }

  /** Each tile index occurs exactly once in `Iota(n)`. The proof is an
      induction on `n` written out by hand, so automatic induction is off. */
  lemma {:induction false} IotaOccurrences(n: nat, v: int)
    ensures multiset(Iota(n))[v] == if 0 <= v < n then 1 else 0
  {
    if n > 0 {
      assert Iota(n) == Iota(n - 1) + [n - 1];
      IotaOccurrences(n - 1, v);
    } else {
      assert Iota(n) == [];
    }
  }

  /** A value occurring at two positions occurs at least twice. */
  lemma TwiceAtLeast(s: seq<int>, p: int, q: int)
    requires 0 <= p < q < |s| && s[p] == s[q]
    ensures multiset(s)[s[p]] >= 2
  {
    assert s == s[..q] + s[q..];
    assert s[..q][p] in multiset(s[..q]);
    assert s[q..][0] in multiset(s[q..]);
  }

  /** A permutation of `[0, n)` has length `n`, its entries are tiles of
      the grid, and none repeats. */
  lemma PermutationOfIota(s: seq<int>, n: nat)
    requires multiset(s) == multiset(Iota(n))
    ensures |s| == n
    ensures DistinctTiles(s, n)
  {
    assert |s| == |multiset(s)| == |multiset(Iota(n))| == n;
    forall k | 0 <= k < |s| ensures 0 <= s[k] < n {
      assert s[k] in multiset(s);
      IotaOccurrences(n, s[k]);
    }
    forall p, q | 0 <= p < q < |s| ensures s[p] != s[q] {
      if s[p] == s[q] {
        TwiceAtLeast(s, p, q);
        IotaOccurrences(n, s[p]);
        assert false;
      }
    }
  }

  /** The Fisher–Yates loop: for `i` from the last index down to 1, swap
      element `i` with an element at some `j` in `[0, i]`. */
  method Shuffle(a: array<int>)
    modifies a
    ensures multiset(a[..]) == multiset(old(a[..]))
  {
    var i := a.Length - 1;
    while i > 0
      invariant i < a.Length
      invariant multiset(a[..]) == multiset(old(a[..]))
    {
      var j :| 0 <= j <= i;
      a[i], a[j] := a[j], a[i];
      i := i - 1;
    }
  }

  /** `generateSequence` without its bookkeeping: a prefix, of the length
      the level asks for, of a shuffled `[0, tileCount)`. */
  method GenerateSequence(tileCount: nat, level: int) returns (s: seq<int>)
    ensures FreshSequence(s, tileCount, level)
  {
    var flashCount := FlashCount(tileCount, level);
    var available := new int[tileCount];
    var i := 0;
    while i < tileCount
      invariant 0 <= i <= tileCount
      invariant available[..i] == Iota(i)
    {
      available[i] := i;
      assert available[..i + 1] == available[..i] + [i];
      i := i + 1;
    }
    assert available[..] == Iota(tileCount);
    Shuffle(available);
    PermutationOfIota(available[..], tileCount);
    s := available[..SliceLength(tileCount, flashCount)];
  }
}
