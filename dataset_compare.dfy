/**
 * Comparison of a dataset file with a reference file, as the dataset tests
 * use it: the position of the first differing byte, the first differences
 * in the header and in the data, and the index of the first differing
 * 32-bit float. A file is the sequence of its bytes.
 */
module DatasetCompare {
  import opened Wrappers
  import opened Text

  type Byte = x: int | 0 <= x < 256

  function Min(a: int, b: int): int { if a <= b then a else b }

  /** r is the first index in [lo, hi) where a and b differ, or -1 when they agree there. */
  ghost predicate FirstDifference(a: seq<Byte>, b: seq<Byte>, lo: nat, hi: nat, r: int)
    requires lo <= hi <= |a| && hi <= |b|
  {
    (r == -1 && forall k | lo <= k < hi :: a[k] == b[k])
    || (lo <= r < hi && a[r] != b[r] && forall k | lo <= k < r :: a[k] == b[k])
  }

  /** The first index in [lo, hi) where a and b differ, or -1. */
  function FirstDiff(a: seq<Byte>, b: seq<Byte>, lo: nat, hi: nat): (r: int)
    requires lo <= hi <= |a| && hi <= |b|
    ensures FirstDifference(a, b, lo, hi, r)
    decreases hi - lo
  {
    if lo == hi then -1
    else if a[lo] != b[lo] then lo
    else FirstDiff(a, b, lo + 1, hi)
  }

  /**
   * Files.mismatch: -1 for equal contents, else the first index where the
   * bytes differ, or the shorter length when one file is a prefix of the
   * other.
   */
  function Mismatch(a: seq<Byte>, b: seq<Byte>): (r: int)
    ensures r == -1 <==> a == b
    ensures r != -1 ==> 0 <= r <= Min(|a|, |b|) && a[..r] == b[..r]
    ensures r != -1 && r < Min(|a|, |b|) ==> a[r] != b[r]
  {
    var n := Min(|a|, |b|);
    var k := FirstDiff(a, b, 0, n);
    if k != -1 then k
    else
      assert a[..n] == b[..n];
      if |a| != |b| then n else -1
  }

  /**
   * compare: -1 when the files are identical; the shorter length when the
   * lengths differ; otherwise the first differing byte.
   */
  function Compare(ref: seq<Byte>, test: seq<Byte>): (r: int)
    ensures r == -1 <==> ref == test
    ensures |ref| != |test| ==> r == Min(|ref|, |test|)
    ensures |ref| == |test| && r != -1 ==> 0 <= r < |ref| && ref[r] != test[r] && ref[..r] == test[..r]
  {
    if |ref| != |test| then Min(|ref|, |test|) else Mismatch(ref, test)
  }

  /** The header size of a dataset file: none for data.dat, the NV header for .nv files, the UCSF header otherwise. */
  function HeaderSize(fileName: string, nvHeaderSize: nat, ucsfHeaderSize: nat): nat
  {
    if fileName == "data.dat" then 0 else if EndsWith(fileName, ".nv") then nvHeaderSize else ucsfHeaderSize
  }

  /**
   * What compareParts returns: the size error (the shorter length when the
   * lengths differ), then the first data difference at or after the header
   * and the first header difference, each -1 when not found.
   */
  function Parts(ref: seq<Byte>, test: seq<Byte>, headerSize: nat): (r: seq<int>)
    ensures |r| == 3
  {
    if |ref| != |test| then [Min(|ref|, |test|), -1, -1]
    else if ref == test then [-1, -1, -1]
    else
      var h := Min(headerSize, |ref|);
      [-1, FirstDiff(ref, test, h, |ref|), FirstDiff(ref, test, 0, h)]
  }

  /**
   * compareParts: scans the header bytes and then the data bytes for their
   * first difference. The header scan never reads past the end of a file
   * shorter than its header, since the files differ somewhere inside.
   */
  method CompareParts(fileName: string, ref: seq<Byte>, test: seq<Byte>, nvHeaderSize: nat, ucsfHeaderSize: nat)
    returns (r: seq<int>)
    ensures r == Parts(ref, test, HeaderSize(fileName, nvHeaderSize, ucsfHeaderSize))
  {
    var fileSizeError := -1;
    var headerErrorPosition := -1;
    var dataErrorPosition := -1;
    if |ref| != |test| {
      fileSizeError := Min(|ref|, |test|);
    } else if ref != test {
      var headerSize := HeaderSize(fileName, nvHeaderSize, ucsfHeaderSize);
      ghost var m := Mismatch(ref, test);
      var i := 0;
      while i < headerSize
        invariant 0 <= i <= headerSize && i <= m
        invariant forall k | 0 <= k < i :: ref[k] == test[k]
      {
        if ref[i] != test[i] {
          headerErrorPosition := i;
          break;
        }
        i := i + 1;
      }
      assert headerErrorPosition == FirstDiff(ref, test, 0, Min(headerSize, |ref|));
      i := headerSize;
      while i < |ref|
        invariant headerSize <= i && (i == headerSize || i <= |ref|)
        invariant forall k | headerSize <= k < i && k < |ref| :: ref[k] == test[k]
      {
        if ref[i] != test[i] {
          dataErrorPosition := i;
          break;
        }
        i := i + 1;
      }
      assert dataErrorPosition == FirstDiff(ref, test, Min(headerSize, |ref|), |ref|);
    }
    r := [fileSizeError, dataErrorPosition, headerErrorPosition];
  }

  /**
   * compareDetailed: {-1, -1, -1} exactly for identical files; the size
   * error alone when the lengths differ; the header and data positions when
   * the contents differ.
   */
  method CompareDetailed(fileName: string, ref: seq<Byte>, test: seq<Byte>, nvHeaderSize: nat, ucsfHeaderSize: nat)
    returns (r: seq<int>)
    ensures r == [-1, -1, -1] <==> ref == test
    ensures r == Parts(ref, test, HeaderSize(fileName, nvHeaderSize, ucsfHeaderSize))
  {
    r := [-1, -1, -1];
    if |ref| != |test| {
      r := r[0 := Min(|ref|, |test|)];
      assert r[0] != -1;
    } else {
      var matchScore := Mismatch(ref, test);
      if matchScore != -1 {
        r := CompareParts(fileName, ref, test, nvHeaderSize, ucsfHeaderSize);
        PartsOfDifferentFiles(ref, test, HeaderSize(fileName, nvHeaderSize, ucsfHeaderSize));
        assert r[1] != -1 || r[2] != -1;
      }
    }
  }

  /**
   * For files of one length that differ, the first difference is reported
   * in the header when it lies there, and otherwise in the data with no
   * header position; so one of the two is set.
   */
  lemma {:induction false} PartsOfDifferentFiles(ref: seq<Byte>, test: seq<Byte>, headerSize: nat)
    requires |ref| == |test| && ref != test
    ensures var r := Parts(ref, test, headerSize); var m := Mismatch(ref, test);
      r[0] == -1
      && (m < headerSize ==> r[2] == m)
      && (m >= headerSize ==> r[2] == -1 && r[1] == m)
  {
    var m := Mismatch(ref, test);
    var h := Min(headerSize, |ref|);
    assert ref[m] != test[m];
    assert forall k | 0 <= k < m :: ref[k] == test[k] by {
      assert ref[..m] == test[..m];
      forall k | 0 <= k < m
        ensures ref[k] == test[k]
      {
        assert ref[..m][k] == ref[k] && test[..m][k] == test[k];
      }
    }
  }

  /** Float.compare on two big-endian 32-bit floats is non-zero unless the bits agree or both are NaN. */
  predicate IsNaN(b0: Byte, b1: Byte, b2: Byte, b3: Byte)
  {
    (b0 % 128) * 2 + b1 / 128 == 255 && (b1 % 128 != 0 || b2 != 0 || b3 != 0)
  }

  /** Whether float number i of the two files differs, by Float.compare. */
  predicate FloatDiffers(a: seq<Byte>, b: seq<Byte>, i: nat)
    requires 4 * i + 4 <= |a| && 4 * i + 4 <= |b|
  {
    var p := 4 * i;
    a[p..p + 4] != b[p..p + 4]
    && !(IsNaN(a[p], a[p + 1], a[p + 2], a[p + 3]) && IsNaN(b[p], b[p + 1], b[p + 2], b[p + 3]))
  }

  /**
   * Reading floats from float i on, for files of one length: the index of
   * the first differing float, -1 when all agree, or an end of file when a
   * partial float is reached first.
   */
  function FloatMismatch(a: seq<Byte>, b: seq<Byte>, i: nat): (r: Result<int>)
    requires |a| == |b| && 4 * i <= |a|
    ensures r.Ok? && r.value != -1 ==> i <= r.value && 4 * r.value + 4 <= |a| && FloatDiffers(a, b, r.value)
    ensures r.Ok? && r.value != -1 ==> forall j: nat | i <= j < r.value :: !FloatDiffers(a, b, j)
    ensures r == Ok(-1) ==> |a| % 4 == 0 && forall j: nat | i <= j && 4 * j + 4 <= |a| :: !FloatDiffers(a, b, j)
    ensures r.Err? ==> r.error == EndOfFile("readFloat") && |a| % 4 != 0
    decreases |a| - 4 * i
  {
    if 4 * i >= |a| then Ok(-1)
    else if 4 * i + 4 > |a| then Err(EndOfFile("readFloat"))
    else if FloatDiffers(a, b, i) then Ok(i)
    else FloatMismatch(a, b, i + 1)
  }

  /** compareFloat as intended: the shorter length when the lengths differ, else the first differing float or -1. */
  function FloatCompare(ref: seq<Byte>, test: seq<Byte>): Result<int>
  {
    if |ref| != |test| then Ok(Min(|ref|, |test|)) else FloatMismatch(ref, test, 0)
  }

  /** compareFloat as written: a difference in float 0 is reported as -1. */
  function FloatCompareAsWritten(ref: seq<Byte>, test: seq<Byte>): Result<int>
  {
    if |ref| != |test| then Ok(Min(|ref|, |test|))
    else if FloatMismatch(ref, test, 0) == Ok(0) then Ok(-1)
    else FloatMismatch(ref, test, 0)
  }

  /**
   * The reading loop of compareFloat, for files of one length: float by
   * float while bytes remain, stopping at the first float that differs; a
   * partial float at the end throws.
   */
  method ReadFloats(ref: seq<Byte>, test: seq<Byte>) returns (r: Result<int>)
    requires |ref| == |test|
    ensures r == FloatMismatch(ref, test, 0)
  {
    var result := -1;
    var i := 0;
    while 4 * i < |ref|
      invariant 4 * i <= |ref|
      invariant FloatMismatch(ref, test, 0) == FloatMismatch(ref, test, i)
      decreases |ref| - 4 * i
    {
      if 4 * i + 4 > |ref| {
        return Err(EndOfFile("readFloat"));
      }
      if FloatDiffers(ref, test, i) {
        result := i;
        break;
      }
      i := i + 1;
    }
    r := Ok(result);
  }

  /** compareFloat as intended: the shorter length, or the index of the first differing float, or -1. */
  method CompareFloat(ref: seq<Byte>, test: seq<Byte>) returns (r: Result<int>)
    ensures r == FloatCompare(ref, test)
  {
    if |ref| != |test| {
      r := Ok(Min(|ref|, |test|));
    } else {
      r := ReadFloats(ref, test);
    }
  }

  /** compareFloat as the source writes it: a difference found at float 0 is reported as -1. */
  method CompareFloatAsWritten(ref: seq<Byte>, test: seq<Byte>) returns (r: Result<int>)
    ensures r == FloatCompareAsWritten(ref, test)
  {
    if |ref| != |test| {
      r := Ok(Min(|ref|, |test|));
    } else {
      r := ReadFloats(ref, test);
      if r == Ok(0) {
        r := Ok(-1);
      }
    }
  }

  /**
   * The corrected comparison reports -1 exactly when the files have one
   * length, a whole number of floats, and no differing float.
   */
  lemma {:induction false} FloatCompareEqual(ref: seq<Byte>, test: seq<Byte>)
    ensures FloatCompare(ref, test) == Ok(-1) <==>
      |ref| == |test| && |ref| % 4 == 0 && forall j: nat | 4 * j + 4 <= |ref| :: !FloatDiffers(ref, test, j)
  {
    if |ref| != |test| {
      assert FloatCompare(ref, test) == Ok(Min(|ref|, |test|));
    } else if |ref| % 4 == 0 && forall j: nat | 4 * j + 4 <= |ref| :: !FloatDiffers(ref, test, j) {
      NoDifferenceFrom(ref, test, 0);
    }
  }

  lemma {:induction false} NoDifferenceFrom(a: seq<Byte>, b: seq<Byte>, i: nat)
    requires |a| == |b| && |a| % 4 == 0 && forall j: nat | 4 * j + 4 <= |a| :: !FloatDiffers(a, b, j)
    requires 4 * i <= |a|
    ensures FloatMismatch(a, b, i) == Ok(-1)
    decreases |a| - 4 * i
  {
    if 4 * i < |a| {
      assert 4 * i + 4 <= |a|;
      NoDifferenceFrom(a, b, i + 1);
    }
  }

  /**
   * As written, a file whose first float differs from the reference's
   * (1.0 against 2.0) is reported as -1, the same as an identical file; the
   * corrected comparison reports float 0.
   */
  lemma {:induction false} FirstFloatDifferenceHidden()
    ensures FloatCompareAsWritten([0x3f, 0x80, 0, 0], [0x40, 0, 0, 0]) == Ok(-1)
    ensures FloatCompareAsWritten([0x3f, 0x80, 0, 0], [0x3f, 0x80, 0, 0]) == Ok(-1)
    ensures FloatCompare([0x3f, 0x80, 0, 0], [0x40, 0, 0, 0]) == Ok(0)
  {
    var one: seq<Byte> := [0x3f, 0x80, 0, 0];
    var two: seq<Byte> := [0x40, 0, 0, 0];
    assert FloatDiffers(one, two, 0) by {
      assert one[0..4] != two[0..4] by { assert one[0..4][0] != two[0..4][0]; }
    }
    assert !FloatDiffers(one, one, 0);
    assert FloatMismatch(one, one, 1) == Ok(-1);
  }
}
