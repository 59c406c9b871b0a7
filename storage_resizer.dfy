/**
 * Resizing a dataset's storage: a new target storage, in memory when the
 * source is in memory and the new size is small enough, otherwise backed by
 * a file; zeroed, then every point of the source box copied into it. A
 * storage holds a value per index tuple; a point never written reads 0.
 */
module StorageResize {

  /** The number of points of a box with these dimension sizes. */
  function Product(sizes: seq<nat>): nat
  {
    if |sizes| == 0 then 1 else sizes[0] * Product(sizes[1..])
  }

  /** Whether an index tuple lies in the box: one index per dimension, each below its size. */
  predicate InBox(idx: seq<int>, sizes: seq<nat>)
  {
    |idx| == |sizes| && forall i | 0 <= i < |idx| :: 0 <= idx[i] < sizes[i]
  }

  /** The position of an index tuple in the box, the last dimension varying fastest. */
  function Rank(idx: seq<int>, sizes: seq<nat>): (r: nat)
    requires InBox(idx, sizes)
    ensures r < Product(sizes)
  {
    if |sizes| == 0 then 0
    else
      assert InBox(idx[1..], sizes[1..]) by {
        forall i | 0 <= i < |idx| - 1
          ensures 0 <= idx[1..][i] < sizes[1..][i]
        {
          assert idx[1..][i] == idx[i + 1];
        }
      }
      var rest := Rank(idx[1..], sizes[1..]);
      RankStep(idx[0], rest, sizes[0], Product(sizes[1..]));
      idx[0] * Product(sizes[1..]) + rest
  }

  /** A leading index below its size followed by a position below the rest's size stays below the product. */
  lemma {:induction false} RankStep(a: nat, r: nat, s: nat, p: nat)
    requires a < s && r < p
    ensures a * p + r < s * p
  {
    assert a * p + r < a * p + p == (a + 1) * p;
    assert (a + 1) * p <= s * p;
  }

  /** A position split into whole blocks of p positions and the remainder, by repeated subtraction. */
  function DigitSplit(k: nat, p: nat): (r: (nat, nat))
    requires p > 0
    ensures k == r.0 * p + r.1 && r.1 < p
    decreases k
  {
    if k < p then (0, k)
    else
      var (q, m) := DigitSplit(k - p, p);
      assert (q + 1) * p == q * p + p;
      (q + 1, m)
  }

  /** A position below s blocks has fewer than s whole blocks. */
  lemma {:induction false} DigitSplitBound(k: nat, s: nat, p: nat)
    requires p > 0 && k < s * p
    ensures DigitSplit(k, p).0 < s
    decreases k
  {
    assert s != 0;
    if k >= p {
      assert s * p == (s - 1) * p + p;
      DigitSplitBound(k - p, s - 1, p);
    }
  }

  /** The split of a * p + r with r below p is (a, r). */
  lemma {:induction false} DigitSplitUnique(a: nat, r: nat, p: nat)
    requires r < p
    ensures DigitSplit(a * p + r, p) == (a, r)
    decreases a
  {
    if a > 0 {
      assert a * p == (a - 1) * p + p;
      DigitSplitUnique(a - 1, r, p);
    }
  }

  /** A product of sizes that exceeds a position is positive in its second factor. */
  lemma {:induction false} PositiveFactor(k: nat, s: nat, p: nat)
    requires k < s * p
    ensures p > 0
  {
    assert p != 0 by {
      assert s * 0 == 0;
    }
  }

  /** The index tuple at a position of the box: the inverse of Rank. */
  function Unrank(k: nat, sizes: seq<nat>): (idx: seq<int>)
    requires k < Product(sizes)
    ensures InBox(idx, sizes) && Rank(idx, sizes) == k
  {
    if |sizes| == 0 then []
    else
      var p := Product(sizes[1..]);
      PositiveFactor(k, sizes[0], p);
      var (q, m) := DigitSplit(k, p);
      DigitSplitBound(k, sizes[0], p);
      var rest := Unrank(m, sizes[1..]);
      var idx := [q] + rest;
      assert idx[1..] == rest;
      idx
  }

  /** Every index tuple of the box is the one at its own position. */
  lemma {:induction false} UnrankRank(idx: seq<int>, sizes: seq<nat>)
    requires InBox(idx, sizes)
    ensures Unrank(Rank(idx, sizes), sizes) == idx
    decreases |sizes|
  {
    if |sizes| > 0 {
      var p := Product(sizes[1..]);
      var k := Rank(idx, sizes);
      assert InBox(idx[1..], sizes[1..]) by {
        forall i | 0 <= i < |idx| - 1
          ensures 0 <= idx[1..][i] < sizes[1..][i]
        {
          assert idx[1..][i] == idx[i + 1];
        }
      }
      var rest := Rank(idx[1..], sizes[1..]);
      assert k == idx[0] * p + rest;
      DigitSplitUnique(idx[0], rest, p);
      UnrankRank(idx[1..], sizes[1..]);
      assert idx == [idx[0]] + idx[1..];
    }
  }

  /** The value a storage holds at an index tuple; a point never written reads 0. */
  function Value(values: map<seq<int>, real>, idx: seq<int>): real
  {
    if idx in values then values[idx] else 0.0
  }

  /** A dataset's storage: in memory or backed by a file, with the sizes of its layout. */
  class Storage {
    const sizes: seq<nat>
    const inMemory: bool
    var values: map<seq<int>, real>

    constructor(sizes: seq<nat>, inMemory: bool)
      ensures this.sizes == sizes && this.inMemory == inMemory && values == map[]
    {
      this.sizes := sizes;
      this.inMemory := inMemory;
      values := map[];
    }

    function GetFloat(idx: seq<int>): real
      reads this
    {
      Value(values, idx)
    }

    method SetFloat(value: real, idx: seq<int>)
      modifies this`values
      ensures values == old(values)[idx := value]
    {
      values := values[idx := value];
    }

    /** zero: every point reads 0. */
    method Zero()
      modifies this`values
      ensures forall idx :: GetFloat(idx) == 0.0
    {
      values := map[];
    }
  }

  /**
   * copyTo: every point of the source box is copied to the same index of
   * the target; the target's other points keep their values. The points are
   * visited by position in the box.
   */
  method CopyTo(sourceSizes: seq<nat>, source: Storage, target: Storage)
    requires source != target
    modifies target`values
    ensures forall idx ::
      target.GetFloat(idx) == (if InBox(idx, sourceSizes) then source.GetFloat(idx) else old(target.GetFloat(idx)))
  {
    ghost var before := target.values;
    var n := Product(sourceSizes);
    var k := 0;
    while k < n
      invariant 0 <= k <= n
      invariant forall idx :: Value(target.values, idx) == Copied(source.values, before, sourceSizes, k, idx)
    {
      var counts := Unrank(k, sourceSizes);
      var value := source.GetFloat(counts);
      target.SetFloat(value, counts);
      forall idx
        ensures Value(target.values, idx) == Copied(source.values, before, sourceSizes, k + 1, idx)
      {
        CopiedStep(source.values, before, sourceSizes, k, idx);
      }
      k := k + 1;
    }
    forall idx
      ensures target.GetFloat(idx) == if InBox(idx, sourceSizes) then source.GetFloat(idx) else Value(before, idx)
    {
      if InBox(idx, sourceSizes) {
        assert Rank(idx, sourceSizes) < n;
      }
    }
  }

  /** A target's value at an index once the first k positions of the box are copied from the source. */
  function Copied(source: map<seq<int>, real>, before: map<seq<int>, real>, sizes: seq<nat>, k: nat, idx: seq<int>): real
  {
    if InBox(idx, sizes) && Rank(idx, sizes) < k then Value(source, idx) else Value(before, idx)
  }

  /** Copying position k changes the index at that position only. */
  lemma {:induction false} CopiedStep(source: map<seq<int>, real>, before: map<seq<int>, real>, sizes: seq<nat>, k: nat,
                                      idx: seq<int>)
    requires k < Product(sizes)
    ensures var counts := Unrank(k, sizes);
      Copied(source, before, sizes, k + 1, idx)
      == if idx == counts then Value(source, counts) else Copied(source, before, sizes, k, idx)
  {
    if InBox(idx, sizes) && Rank(idx, sizes) == k {
      UnrankRank(idx, sizes);
    }
  }

  /** The byte budget for an in-memory copy. */
  const MemoryLimit: real := 137000000.0

  /**
   * resizeDim: the target is in memory only when the source is and the new
   * box's points take fewer than 137e6 bytes as 4-byte floats; otherwise a
   * file-backed storage with the new sizes. It is zeroed and the source box
   * copied in, so each point of the new box holds the source's value where
   * the source has one and 0 elsewhere. The source is not changed.
   */
  method ResizeDim(source: Storage, newSizes: seq<nat>) returns (target: Storage)
    ensures fresh(target) && target.sizes == newSizes
    ensures target.inMemory <==> source.inMemory && (Product(newSizes) * 4) as real < MemoryLimit
    ensures forall idx | InBox(idx, newSizes) ::
      target.GetFloat(idx) == (if InBox(idx, source.sizes) then source.GetFloat(idx) else 0.0)
    ensures source.values == old(source.values)
  {
    var found := false;
    if source.inMemory {
      var nPoints := Product(newSizes);
      if (nPoints * 4) as real < MemoryLimit {
        target := new Storage(newSizes, true);
        target.Zero();
        found := true;
      }
    }
    if !found {
      target := new Storage(newSizes, false);
      target.Zero();
    }
    CopyTo(source.sizes, source, target);
  }
}
