/**
 * The bookkeeping of a peak list: the position index and the id map, the
 * compression of deleted peaks, renumbering, removal, the search dimensions,
 * the peak-specifier parsers, the matching of peak dimensions to dataset
 * dimensions, the folding of a shift into a window and the property map.
 *
 * A peak is an object whose id, position index and status the list updates in
 * place. Linking, resonances, listeners and the project registry are outside
 * the model.
 */
module PeakLists {
  import opened Wrappers
  import opened Text
  import opened Seqs

  /** The fields of a peak that the list bookkeeping reads and writes. */
  class Peak {
    var idNum: int
    var index: int
    var status: int

    constructor (idNum: int, status: int)
      ensures this.idNum == idNum && this.status == status && index == -1
    {
      this.idNum := idNum;
      this.status := status;
      index := -1;
    }
  }

  /** A spectral dimension of the list: its name and its nucleus. */
  datatype SpectralDim = SpectralDim(name: string, nucleus: string)

  datatype SearchDim = SearchDim(iDim: int, tol: real)

  /** The labels and nucleus names of a dataset's dimensions. */
  datatype Dataset = Dataset(labels: seq<string>, nuclei: seq<string>)

  function IdNums(ps: seq<Peak>): (r: seq<int>)
    reads set p | p in ps
    ensures |r| == |ps| && forall k | 0 <= k < |ps| :: r[k] == ps[k].idNum
  {
    if ps == [] then [] else IdNums(ps[..|ps| - 1]) + [ps[|ps| - 1].idNum]
  }

  /** No later position among the first n holds the id at position k. */
  predicate LastWithId(ids: seq<int>, k: nat, n: nat)
    requires k < n <= |ids|
  {
    forall m | k < m < n :: ids[m] != ids[k]
  }

  predicate UniqueIds(ids: seq<int>) { forall i, j | 0 <= i < j < |ids| :: ids[i] != ids[j] }

  /** Every id of the list is a key, each key leads to a peak of the list carrying that id, and the last peak with an id wins. */
  predicate IndexMapFits(ps: seq<Peak>, ids: seq<int>, m: map<int, Peak>)
    requires |ids| == |ps|
  {
    (forall id | id in m :: exists k | 0 <= k < |ps| :: m[id] == ps[k] && ids[k] == id)
    && (forall k | 0 <= k < |ps| :: ids[k] in m)
    && (forall k | 0 <= k < |ps| && LastWithId(ids, k, |ps|) :: m[ids[k]] == ps[k])
  }

  /** With distinct ids the map leads from each peak's id back to that peak. */
  lemma {:induction false} IndexMapFindsEveryPeak(ps: seq<Peak>, ids: seq<int>, m: map<int, Peak>)
    requires |ids| == |ps| && IndexMapFits(ps, ids, m) && UniqueIds(ids)
    ensures forall k | 0 <= k < |ps| :: m[ids[k]] == ps[k]
    ensures m.Keys == set k | 0 <= k < |ps| :: ids[k]
  {
    forall k | 0 <= k < |ps| ensures m[ids[k]] == ps[k] {
      assert LastWithId(ids, k, |ps|);
    }
    forall id | id in m ensures id in set k | 0 <= k < |ps| :: ids[k] {
      var k :| 0 <= k < |ps| && m[id] == ps[k] && ids[k] == id;
    }
  }

  // ---------------------------------------------------------------------------
  // Peak selection, specifier parsing and dimension matching
  // ---------------------------------------------------------------------------

  function Names(dims: seq<SpectralDim>): (r: seq<string>)
    ensures |r| == |dims| && forall k | 0 <= k < |dims| :: r[k] == dims[k].name
  {
    if dims == [] then [] else Names(dims[..|dims| - 1]) + [dims[|dims| - 1].name]
  }

  /** The first position whose name equals s ignoring case, or -1 when there is none. */
  function FirstNamed(names: seq<string>, s: string): (k: int)
    ensures -1 <= k < |names|
    ensures k >= 0 ==> EqualsIgnoreCase(names[k], s)
    ensures forall i | 0 <= i < |names| && (k < 0 || i < k) :: !EqualsIgnoreCase(names[i], s)
  {
    if |names| == 0 then -1
    else if EqualsIgnoreCase(names[0], s) then 0
    else
      var k := FirstNamed(names[1..], s);
      if k < 0 then -1 else k + 1
  }

  /** The text after the last dot, when the specifier holds at least two dots. */
  function DimField(spec: string): Option<string>
  {
    var dot := FindChar(spec, '.');
    var lastDot := FindLastChar(spec, '.');
    if dot == |spec| || dot == lastDot then None else Some(spec[lastDot + 1..])
  }

  /**
   * The dimension number of a peak specifier "list.id.dim": 0 when the text
   * holds fewer than two dots, otherwise the integer after the last dot minus
   * one, in Java's int arithmetic.
   */
  function GetPeakDimNum(spec: string): (r: Result<int>)
    ensures '.' !in spec ==> r == Ok(0)
  {
    match DimField(spec)
    case None => Ok(0)
    case Some(field) =>
      match ParseInt(field)
      case None => Err(NumberFormat(field))
      case Some(n) => Ok(Wrap32(n - 1))
  }

  /** The resolved dimension of a specifier before the range check. */
  function ResolvedDim(names: seq<string>, spec: string): int
  {
    match DimField(spec)
    case None => 0
    case Some(field) =>
      var k := FirstNamed(names, field);
      if k != -1 then k else NumberedDim(field)
  }

  /** A dimension given by number n is index n - 1 (int arithmetic); -1 when the text is no integer. */
  function NumberedDim(field: string): int
  {
    match ParseInt(field)
    case None => -1
    case Some(n) => Wrap32(n - 1)
  }

  /** The error getPeakDim throws for a specifier that names no dimension. */
  function BadDim(spec: string): Error
  {
    IllegalArgument("Invalid peak dimension in \"" + spec + "\"")
  }

  function PeakDimOf(names: seq<string>, spec: string): (r: Result<int>)
    ensures r.Ok? ==> 0 <= r.value < |names|
    ensures r.Err? ==> r.error.IllegalArgument?
  {
    var iDim := ResolvedDim(names, spec);
    if 0 <= iDim < |names| then Ok(iDim) else Err(BadDim(spec))
  }

  /** A specifier "list.id.dim" with a plain dimension number n gives n - 1. */
  lemma {:induction false} GetPeakDimNumOfSpecifier(list: string, id: string, n: nat)
    requires '.' !in list && '.' !in id && n <= IntMax
    ensures GetPeakDimNum(list + "." + id + "." + NatToString(n)) == Ok(n - 1)
  {
    var spec := list + "." + id + "." + NatToString(n);
    SpecifierDots(list, id, NatToString(n));
    ParseIntToString(n);
    assert IntToString(n) == NatToString(n);
  }

  /** A specifier "list.id" with one dot names dimension 0. */
  lemma {:induction false} GetPeakDimNumOneDot(list: string, id: string)
    requires '.' !in list && '.' !in id
    ensures GetPeakDimNum(list + "." + id) == Ok(0)
  {
    var spec := list + "." + id;
    assert spec[|list|] == '.';
    assert FindChar(spec, '.') == |list| by {
      assert forall i | 0 <= i < |list| :: spec[i] == list[i];
    }
    assert FindLastChar(spec, '.') == |list| by {
      assert spec[|list| + 1..] == id;
    }
  }

  /** Where the dots of "list.id.field" are, and what follows the last one. */
  lemma {:induction false} SpecifierDots(list: string, id: string, field: string)
    requires '.' !in list && '.' !in id && '.' !in field
    ensures DimField(list + "." + id + "." + field) == Some(field)
  {
    var spec := list + "." + id + "." + field;
    var last := |list| + 1 + |id|;
    assert spec[|list|] == '.' && spec[last] == '.';
    assert FindChar(spec, '.') == |list| by {
      assert forall i | 0 <= i < |list| :: spec[i] == list[i];
    }
    assert FindLastChar(spec, '.') == last by {
      assert spec[last + 1..] == field;
    }
    assert spec[last + 1..] == field;
  }

  /** A dimension named in the specifier resolves to the first dimension of that name. */
  lemma {:induction false} PeakDimByName(names: seq<string>, list: string, id: string, k: nat)
    requires '.' !in list && '.' !in id && k < |names| && '.' !in names[k]
    requires forall i | 0 <= i < k :: !EqualsIgnoreCase(names[i], names[k])
    ensures PeakDimOf(names, list + "." + id + "." + names[k]) == Ok(k)
  {
    SpecifierDots(list, id, names[k]);
    var f := FirstNamed(names, names[k]);
    assert EqualsIgnoreCase(names[k], names[k]);
    assert f == k;
  }

  /**
   * Matching a peak dimension: the first dataset dimension not yet used whose
   * key equals the given one, or -1.
   */
  function FirstUnused(used: seq<bool>, keys: seq<string>, key: string): (i: int)
    requires |used| == |keys|
    ensures -1 <= i < |keys|
    ensures i >= 0 ==> !used[i] && keys[i] == key
    ensures forall k | 0 <= k < |keys| && (i < 0 || k < i) :: used[k] || keys[k] != key
  {
    if |keys| == 0 then -1
    else if !used[0] && keys[0] == key then 0
    else
      var i := FirstUnused(used[1..], keys[1..], key);
      if i < 0 then -1 else i + 1
  }

  function NoneUsed(n: nat): (r: seq<bool>)
    ensures |r| == n && forall k | 0 <= k < n :: !r[k]
  {
    if n == 0 then [] else NoneUsed(n - 1) + [false]
  }

  /**
   * The dataset dimension chosen for peak dimension j, given the dimensions
   * already used: a label match first and, in loose mode, a nucleus match.
   */
  function ChooseDim(dim: SpectralDim, ds: Dataset, loose: bool, used: seq<bool>): (i: int)
    requires |ds.labels| == |ds.nuclei| == |used|
    ensures -1 <= i < |used|
  {
    var i := FirstUnused(used, ds.labels, dim.name);
    if i < 0 && loose then FirstUnused(used, ds.nuclei, dim.nucleus) else i
  }

  /** The error getDimsForDataset throws for a peak dimension it cannot match. */
  function NoMatch(name: string): Error
  {
    IllegalArgument("Can't find match for peak dimension \"" + name + "\"")
  }

  /** The assignment of the first j peak dimensions and the used flags, or the error for the first unmatched one. */
  function MatchDims(dims: seq<SpectralDim>, ds: Dataset, loose: bool, j: nat): (r: Result<(seq<int>, seq<bool>)>)
    requires j <= |dims| && |ds.labels| == |ds.nuclei|
    ensures r.Ok? ==> |r.value.0| == j && |r.value.1| == |ds.labels|
  {
    if j == 0 then Ok(([], NoneUsed(|ds.labels|)))
    else
      match MatchDims(dims, ds, loose, j - 1)
      case Err(e) => Err(e)
      case Ok((pdim, used)) =>
        var i := ChooseDim(dims[j - 1], ds, loose, used);
        if i < 0 then Err(NoMatch(dims[j - 1].name))
        else Ok((pdim + [i], used[i := true]))
  }

  /** One step of the matching, from a known assignment of the first j peak dimensions. */
  lemma {:induction false} MatchDimsStep(dims: seq<SpectralDim>, ds: Dataset, loose: bool, j: nat, pdim: seq<int>, used: seq<bool>, i: int)
    requires j < |dims| && |ds.labels| == |ds.nuclei| && MatchDims(dims, ds, loose, j) == Ok((pdim, used))
    requires i == ChooseDim(dims[j], ds, loose, used)
    ensures i < 0 ==> MatchDims(dims, ds, loose, j + 1) == Err(NoMatch(dims[j].name))
    ensures i >= 0 ==> MatchDims(dims, ds, loose, j + 1) == Ok((pdim + [i], used[i := true]))
  {
  }

  /** The outcome of getDimsForDataset: the assignment of every peak dimension, or the error for the first unmatched one. */
  function MatchedDims(dims: seq<SpectralDim>, ds: Dataset, loose: bool): Result<seq<int>>
    requires |ds.labels| == |ds.nuclei|
  {
    match MatchDims(dims, ds, loose, |dims|)
    case Ok((pdim, _)) => Ok(pdim)
    case Err(e) => Err(e)
  }

  lemma {:induction false} MatchedDimsFail(dims: seq<SpectralDim>, ds: Dataset, loose: bool, j: nat, pdim: seq<int>, used: seq<bool>)
    requires j < |dims| && |ds.labels| == |ds.nuclei| && MatchDims(dims, ds, loose, j) == Ok((pdim, used))
    requires ChooseDim(dims[j], ds, loose, used) < 0
    ensures MatchedDims(dims, ds, loose) == Err(NoMatch(dims[j].name))
  {
    MatchDimsStep(dims, ds, loose, j, pdim, used, ChooseDim(dims[j], ds, loose, used));
    MatchDimsErrStays(dims, ds, loose, j + 1, |dims|);
  }

  predicate Injective(s: seq<int>) { forall a, b | 0 <= a < b < |s| :: s[a] != s[b] }

  /** Every label match of peak dimension k was taken by an earlier peak dimension. */
  predicate LabelsTaken(dims: seq<SpectralDim>, ds: Dataset, pdim: seq<int>, k: nat)
    requires k < |dims| && k <= |pdim|
  {
    forall i | 0 <= i < |ds.labels| && ds.labels[i] == dims[k].name :: i in pdim[..k]
  }

  /** What a successful match promises: an injective map into the dataset dimensions, label matches preferred. */
  predicate GoodMatch(dims: seq<SpectralDim>, ds: Dataset, loose: bool, pdim: seq<int>, used: seq<bool>)
    requires |pdim| <= |dims| && |ds.labels| == |ds.nuclei| == |used|
  {
    Injective(pdim)
    && (forall k | 0 <= k < |pdim| :: 0 <= pdim[k] < |ds.labels|)
    && (forall i | 0 <= i < |used| :: used[i] <==> i in pdim)
    && (forall k | 0 <= k < |pdim| ::
          ds.labels[pdim[k]] == dims[k].name
          || (loose && ds.nuclei[pdim[k]] == dims[k].nucleus && LabelsTaken(dims, ds, pdim, k)))
  }

  lemma {:induction false} MatchDimsGood(dims: seq<SpectralDim>, ds: Dataset, loose: bool, j: nat)
    requires j <= |dims| && |ds.labels| == |ds.nuclei|
    ensures var r := MatchDims(dims, ds, loose, j);
      r.Ok? ==> GoodMatch(dims, ds, loose, r.value.0, r.value.1)
  {
    var r := MatchDims(dims, ds, loose, j);
    if j == 0 {
      assert r.value.0 == [];
    } else if r.Ok? {
      var prev := MatchDims(dims, ds, loose, j - 1);
      MatchDimsGood(dims, ds, loose, j - 1);
      var i := ChooseDim(dims[j - 1], ds, loose, prev.value.1);
      MatchStepGood(dims, ds, loose, prev.value.0, prev.value.1, i);
      assert r.value == (prev.value.0 + [i], prev.value.1[i := true]);
    }
  }

  /** One more peak dimension, matched by ChooseDim, keeps a good match good. */
  lemma {:induction false} MatchStepGood(dims: seq<SpectralDim>, ds: Dataset, loose: bool, pdim: seq<int>, used: seq<bool>, i: int)
    requires |pdim| < |dims| && |ds.labels| == |ds.nuclei| == |used|
    requires GoodMatch(dims, ds, loose, pdim, used)
    requires i == ChooseDim(dims[|pdim|], ds, loose, used) && i >= 0
    ensures GoodMatch(dims, ds, loose, pdim + [i], used[i := true])
  {
    var j := |pdim|;
    var pdim', used' := pdim + [i], used[i := true];
    assert i !in pdim by {
      assert !used[i];
    }
    assert Injective(pdim');
    assert forall q | 0 <= q < |used'| :: used'[q] <==> q in pdim';
    assert pdim'[..j] == pdim;
    forall k | 0 <= k < j && ds.labels[pdim'[k]] != dims[k].name
      ensures loose && ds.nuclei[pdim'[k]] == dims[k].nucleus && LabelsTaken(dims, ds, pdim', k)
    {
      assert pdim'[..k] == pdim[..k];
      assert LabelsTaken(dims, ds, pdim, k);
    }
    if ds.labels[i] != dims[j].name {
      assert LabelsTaken(dims, ds, pdim', j) by {
        forall q | 0 <= q < |ds.labels| && ds.labels[q] == dims[j].name ensures q in pdim'[..j] {
          assert used[q];
        }
      }
    }
  }

  /** Peak dimension k is the first that finds no free dataset dimension. */
  predicate FailsAt(dims: seq<SpectralDim>, ds: Dataset, loose: bool, k: nat)
    requires k < |dims| && |ds.labels| == |ds.nuclei|
  {
    var m := MatchDims(dims, ds, loose, k);
    m.Ok? && ChooseDim(dims[k], ds, loose, m.value.1) < 0
  }

  /** The matching throws exactly when some peak dimension finds no free dataset dimension in its turn. */
  lemma {:induction false} MatchDimsFails(dims: seq<SpectralDim>, ds: Dataset, loose: bool, j: nat)
    requires j <= |dims| && |ds.labels| == |ds.nuclei|
    ensures MatchDims(dims, ds, loose, j).Err? <==> exists k | 0 <= k < j :: FailsAt(dims, ds, loose, k)
  {
    if j > 0 {
      MatchDimsFails(dims, ds, loose, j - 1);
      if MatchDims(dims, ds, loose, j).Err? && MatchDims(dims, ds, loose, j - 1).Ok? {
        assert FailsAt(dims, ds, loose, j - 1);
      }
      if FailsAt(dims, ds, loose, j - 1) {
        assert MatchDims(dims, ds, loose, j).Err?;
      }
    }
  }

  /** Once the matching has thrown, later dimensions do not revive it. */
  lemma {:induction false} MatchDimsErrStays(dims: seq<SpectralDim>, ds: Dataset, loose: bool, j: nat, n: nat)
    requires j <= n <= |dims| && |ds.labels| == |ds.nuclei|
    requires MatchDims(dims, ds, loose, j).Err?
    ensures MatchDims(dims, ds, loose, n) == MatchDims(dims, ds, loose, j)
    decreases n - j
  {
    if j < n {
      MatchDimsErrStays(dims, ds, loose, j + 1, n);
    }
  }

  // ---------------------------------------------------------------------------
  // foldPPM
  // ---------------------------------------------------------------------------

  /** ppm moved by k whole steps of fDelta. */
  function Shifted(ppm: real, k: int, fDelta: real): real { ppm + k as real * fDelta }

  lemma {:induction false} ShiftStep(ppm: real, k: int, fDelta: real)
    ensures Shifted(ppm, k, fDelta) - fDelta == Shifted(ppm, k - 1, fDelta)
    ensures Shifted(ppm, k, fDelta) + fDelta == Shifted(ppm, k + 1, fDelta)
  {
    assert (k - 1) as real * fDelta == k as real * fDelta - fDelta;
    assert (k + 1) as real * fDelta == k as real * fDelta + fDelta;
  }

  /** The number of whole steps of d that fit in x drops by one when x drops by d. */
  lemma {:induction false} FloorStep(x: real, d: real)
    requires d > 0.0
    ensures ((x - d) / d).Floor == (x / d).Floor - 1
  {
    assert d / d == 1.0;
    assert (x - d) / d == x / d - d / d;
  }

  /**
   * Folds a shift into the window [min, max] (bounds in either order) by whole
   * steps of fDelta; a window of zero width leaves the shift alone.
   */
  method FoldPPM(ppm: real, fDelta: real, min: real, max: real) returns (r: real)
    requires min != max ==> fDelta > 0.0
    ensures var lo := if min > max then max else min;
      var hi := if min > max then min else max;
      (lo == hi ==> r == ppm)
      && (lo != hi ==> r >= lo && exists k: int :: r == Shifted(ppm, k, fDelta))
      && (lo != hi && fDelta <= hi - lo ==> r <= hi)
      && (lo <= ppm <= hi ==> r == ppm)
  {
    var lo, hi := min, max;
    if lo > hi {
      lo, hi := max, min;
    }
    r := ppm;
    if lo != hi {
      ghost var k;
      r, k := FoldDown(ppm, fDelta, hi);
      r, k := FoldUp(r, ppm, k, fDelta, lo, hi);
    }
  }

  /** The first loop of the fold: steps of fDelta down until the shift is at most hi. */
  method FoldDown(ppm: real, fDelta: real, hi: real) returns (r: real, ghost k: int)
    requires fDelta > 0.0
    ensures r <= hi && r == Shifted(ppm, k, fDelta)
    ensures ppm <= hi ==> r == ppm
  {
    r, k := ppm, 0;
    while r > hi
      invariant r == Shifted(ppm, k, fDelta)
      invariant ppm <= hi ==> r == ppm
      decreases ((r - hi) / fDelta).Floor
    {
      ShiftStep(ppm, k, fDelta);
      FloorStep(r - hi, fDelta);
      r := r - fDelta;
      k := k - 1;
    }
  }

  /** The second loop of the fold: steps of fDelta up until the shift is at least lo. */
  method FoldUp(r0: real, ppm: real, ghost k0: int, fDelta: real, lo: real, hi: real) returns (r: real, ghost k: int)
    requires fDelta > 0.0 && r0 == Shifted(ppm, k0, fDelta)
    ensures r >= lo && r == Shifted(ppm, k, fDelta)
    ensures fDelta <= hi - lo && r0 <= hi ==> r <= hi
    ensures r0 >= lo ==> r == r0
  {
    r, k := r0, k0;
    while r < lo
      invariant r == Shifted(ppm, k, fDelta)
      invariant fDelta <= hi - lo && r0 <= hi ==> r <= hi
      invariant r0 >= lo ==> r == r0
      decreases ((lo - r) / fDelta).Floor
    {
      ShiftStep(ppm, k, fDelta);
      FloorStep(lo - r, fDelta);
      r := r + fDelta;
      k := k + 1;
    }
  }

  // ---------------------------------------------------------------------------
  // Search dimensions
  // ---------------------------------------------------------------------------

  /** The entries for other dimensions, in their order. */
  function WithoutDim(sds: seq<SearchDim>, iDim: int): (r: seq<SearchDim>)
    ensures forall k | 0 <= k < |r| :: r[k].iDim != iDim && r[k] in sds
    ensures forall s | s in sds && s.iDim != iDim :: s in r
  {
    if sds == [] then []
    else
      var last := sds[|sds| - 1];
      WithoutDim(sds[..|sds| - 1], iDim) + (if last.iDim == iDim then [] else [last])
  }

  predicate UniqueDims(sds: seq<SearchDim>) { forall a, b | 0 <= a < b < |sds| :: sds[a].iDim != sds[b].iDim }

  /** Dropping a dimension keeps the others at most once each. */
  lemma {:induction false} WithoutDimUnique(sds: seq<SearchDim>, iDim: int)
    requires UniqueDims(sds)
    ensures UniqueDims(WithoutDim(sds, iDim))
  {
    if sds != [] {
      var init := sds[..|sds| - 1];
      var last := sds[|sds| - 1];
      WithoutDimUnique(init, iDim);
      if last.iDim != iDim {
        var w := WithoutDim(init, iDim);
        forall a | 0 <= a < |w| ensures w[a].iDim != last.iDim {
          assert w[a] in init;
        }
      }
    }
  }

  /** addSearchDim keeps at most one entry per dimension and puts the new one last. */
  lemma {:induction false} AddSearchDimUnique(sds: seq<SearchDim>, iDim: int, tol: real)
    requires UniqueDims(sds)
    ensures var r := WithoutDim(sds, iDim) + [SearchDim(iDim, tol)];
      UniqueDims(r) && r[|r| - 1] == SearchDim(iDim, tol)
      && forall s | s in sds && s.iDim != iDim :: s in r
  {
    WithoutDimUnique(sds, iDim);
  }

  /** One (name, tolerance) pair of setSearchDims; false when the tolerance did not parse. */
  function ApplyPair(names: seq<string>, sds: seq<SearchDim>, name: string, tol: Option<real>): (seq<SearchDim>, bool)
  {
    match tol
    case None => (sds, false)
    case Some(t) =>
      var iDim := FirstNamed(names, name);
      (WithoutDim(sds, iDim) + [SearchDim(iDim, t)], true)
  }

  /** The tolerance of each (name, tolerance) pair, as Double.parseDouble reads it. */
  function Tolerances(elements: seq<string>): (r: seq<Option<real>>)
    ensures |r| == |elements| / 2 && forall k | 0 <= k < |r| :: r[k] == ParseDouble(elements[2 * k + 1])
  {
    PairSeconds(elements, ParseDouble)
  }

  /** The numbering loop of reNumber: each peak's id becomes its position; nothing else of a peak changes. */
  method NumberPeaks(ps: seq<Peak>)
    requires Distinct(ps)
    modifies set p | p in ps
    ensures forall k | 0 <= k < |ps| :: ps[k].idNum == k
    ensures forall k | 0 <= k < |ps| :: ps[k].status == old(ps[k].status) && ps[k].index == old(ps[k].index)
  {
    for i := 0 to |ps|
      invariant forall k | 0 <= k < i :: ps[k].idNum == k
      invariant forall k | 0 <= k < |ps| :: ps[k].status == old(ps[k].status) && ps[k].index == old(ps[k].index)
    {
      DistinctBefore(ps, i);
      ps[i].idNum := i;
    }
  }

  /** The second token of each pair, read by parse. */
  function PairSeconds(elements: seq<string>, parse: string -> Option<real>): (r: seq<Option<real>>)
    ensures |r| == |elements| / 2 && forall k | 0 <= k < |r| :: r[k] == parse(elements[2 * k + 1])
  {
    var n := |elements| / 2;
    seq(n, k requires 0 <= k < n => parse(elements[2 * k + 1]))
  }

  /**
   * The search dimensions after the first k (name, tolerance) pairs, and
   * whether every tolerance parsed; a failed parse stops there.
   */
  function PairsApplied(names: seq<string>, elements: seq<string>, tols: seq<Option<real>>, k: nat): (seq<SearchDim>, bool)
    requires k <= |tols| && 2 * |tols| <= |elements|
  {
    if k == 0 then ([], true)
    else
      var prev := PairsApplied(names, elements, tols, k - 1);
      if !prev.1 then prev else ApplyPair(names, prev.0, elements[2 * k - 2], tols[k - 1])
  }

  /** Whatever the tokens, setSearchDims leaves at most one entry per dimension. */
  lemma {:induction false} PairsAppliedUnique(names: seq<string>, elements: seq<string>, tols: seq<Option<real>>, k: nat)
    requires k <= |tols| && 2 * |tols| <= |elements|
    ensures UniqueDims(PairsApplied(names, elements, tols, k).0)
  {
    if k > 0 {
      PairsAppliedUnique(names, elements, tols, k - 1);
      var sds := PairsApplied(names, elements, tols, k - 1).0;
      var iDim := FirstNamed(names, elements[2 * k - 2]);
      match tols[k - 1]
      case None =>
      case Some(tol) => AddSearchDimUnique(sds, iDim, tol);
    }
  }

  lemma {:induction false} PairsAppliedStep(names: seq<string>, elements: seq<string>, tols: seq<Option<real>>, k: nat, sds: seq<SearchDim>)
    requires k < |tols| && 2 * |tols| <= |elements| && PairsApplied(names, elements, tols, k) == (sds, true)
    ensures PairsApplied(names, elements, tols, k + 1) == ApplyPair(names, sds, elements[2 * k], tols[k])
  {
  }

  /** After a failed parse the later pairs change nothing. */
  lemma {:induction false} PairsStayFailed(names: seq<string>, elements: seq<string>, tols: seq<Option<real>>, k: nat, n: nat)
    requires k <= n <= |tols| && 2 * |tols| <= |elements| && !PairsApplied(names, elements, tols, k).1
    ensures PairsApplied(names, elements, tols, n) == PairsApplied(names, elements, tols, k)
    decreases n - k
  {
    if k < n {
      PairsStayFailed(names, elements, tols, k + 1, n);
    }
  }

  // ---------------------------------------------------------------------------
  // The list
  // ---------------------------------------------------------------------------

  /** The peaks that compress keeps: those with a non-negative status, in order. */
  function Kept(ps: seq<Peak>): (r: seq<Peak>)
    reads set p | p in ps
    ensures |r| <= |ps|
  {
    if ps == [] then [] else (if ps[0].status >= 0 then [ps[0]] else []) + Kept(ps[1..])
  }

  /** One step of Kept, taken at position i. */
  lemma {:induction false} KeptStep(ps: seq<Peak>, i: nat)
    requires i < |ps|
    ensures Kept(ps[i..]) == (if ps[i].status >= 0 then [ps[i]] else []) + Kept(ps[i + 1..])
  {
    assert ps[i..][0] == ps[i] && ps[i..][1..] == ps[i + 1..];
  }

  /** Dropping position i (when deleted) extends the kept suffix by one place. */
  lemma {:induction false} DropStep(orig: seq<Peak>, ps: seq<Peak>, i: nat)
    requires i < |orig| && ps == orig[..i + 1] + Kept(orig[i + 1..])
    ensures i < |ps| && ps[i] == orig[i]
    ensures (if ps[i].status < 0 then ps[..i] + ps[i + 1..] else ps) == orig[..i] + Kept(orig[i..])
  {
    KeptStep(orig, i);
    var tail := Kept(orig[i + 1..]);
    assert ps[..i] == orig[..i] && ps[i] == orig[i] && ps[i + 1..] == tail;
    if ps[i].status >= 0 {
      assert ps == orig[..i] + ([orig[i]] + tail);
    }
  }

  /** The removal loop of compress over the list, walking from the end. */
  method DropLoop(orig: seq<Peak>) returns (ps: seq<Peak>, nRemoved: int)
    ensures ps == Kept(orig) && nRemoved == |orig| - |ps|
  {
    ps := orig;
    var i := |ps| - 1;
    nRemoved := 0;
    while i >= 0
      invariant -1 <= i < |orig|
      invariant ps == orig[..i + 1] + Kept(orig[i + 1..])
      invariant nRemoved == |orig| - |ps|
    {
      DropStep(orig, ps, i);
      if ps[i].status < 0 {
        ps := ps[..i] + ps[i + 1..];
        nRemoved := nRemoved + 1;
      }
      i := i - 1;
    }
    assert orig[0..] == orig;
  }

  /** compress keeps exactly the peaks whose status is not negative. */
  lemma {:induction false} KeptExactly(ps: seq<Peak>)
    ensures forall p :: p in Kept(ps) <==> p in ps && p.status >= 0
    ensures PairwiseDistinct(ps) ==> PairwiseDistinct(Kept(ps))
  {
    if ps != [] {
      KeptExactly(ps[1..]);
      assert forall p | p in ps :: p == ps[0] || p in ps[1..];
      if PairwiseDistinct(ps) {
        assert PairwiseDistinct(ps[1..]);
        assert ps[0] !in ps[1..];
      }
    }
  }

  class PeakList {
    var peaks: seq<Peak>
    var indexMap: map<int, Peak>
    var idLast: int
    var searchDims: seq<SearchDim>
    var properties: map<string, string>
    const dims: seq<SpectralDim>

    constructor (dims: seq<SpectralDim>)
      ensures this.dims == dims && peaks == [] && indexMap == map[] && idLast == -1
      ensures searchDims == [] && properties == map[]
    {
      this.dims := dims;
      peaks := [];
      indexMap := map[];
      idLast := -1;
      searchDims := [];
      properties := map[];
    }

    /** reIndex: each peak's index becomes its position and the id map is rebuilt. */
    method ReIndex()
      requires Distinct(peaks)
      modifies this`indexMap, peaks
      ensures peaks == old(peaks) && idLast == old(idLast)
      ensures forall k | 0 <= k < |peaks| :: peaks[k].index == k
      ensures forall k | 0 <= k < |peaks| :: peaks[k].idNum == old(peaks[k].idNum) && peaks[k].status == old(peaks[k].status)
      ensures indexMap == IndexMapOf(peaks, old(IdNums(peaks)))
    {
      var ps := peaks;
      assert forall k | 0 <= k < |ps| :: ps[k] as object != this;
      ghost var ids := IdNums(ps);
      var m: map<int, Peak> := map[];
      var i := 0;
      while i < |ps|
        invariant 0 <= i <= |ps|
        invariant forall k | 0 <= k < |ps| :: ps[k].idNum == old(ps[k].idNum) && ps[k].status == old(ps[k].status)
        invariant forall k | 0 <= k < i :: ps[k].index == k
        invariant m == IndexMapOf(ps[..i], ids[..i])
      {
        DistinctBefore(ps, i);
        ps[i].index := i;
        IndexMapOfStep(ps, ids, i);
        m := m[ps[i].idNum := ps[i]];
        i := i + 1;
      }
      assert ps[..i] == ps && ids[..i] == ids;
      indexMap := m;
    }

    /** getPeak: the peak at position i, or null outside [0, size). */
    method GetPeak(i: int) returns (r: Peak?)
      requires Distinct(peaks)
      modifies this`indexMap, peaks
      ensures peaks == old(peaks)
      ensures 0 <= i < |peaks| ==> r == peaks[i]
      ensures !(0 <= i < |peaks|) ==> r == null
    {
      if indexMap == map[] {
        ReIndex();
      }
      if 0 <= i < |peaks| {
        r := peaks[i];
      } else {
        r := null;
      }
    }

    /** compress: drops the peaks with negative status, keeps the rest in order and reports how many went. */
    method Compress() returns (nRemoved: int)
      requires Distinct(peaks)
      modifies this`peaks, this`indexMap, peaks
      ensures peaks == old(Kept(peaks)) && Distinct(peaks)
      ensures nRemoved == old(|peaks|) - |peaks|
      ensures forall k | 0 <= k < |peaks| :: peaks[k].index == k && peaks[k].status >= 0
      ensures indexMap == IndexMapOf(peaks, IdNums(peaks))
    {
      ghost var before := peaks;
      nRemoved := DropDeleted();
      assert Distinct(peaks) && forall k | 0 <= k < |peaks| :: peaks[k] in before && peaks[k].status >= 0 by {
        KeptExactly(before);
        DistinctIsPairwise(before);
        DistinctIsPairwise(peaks);
        forall k | 0 <= k < |peaks| ensures peaks[k] in before && peaks[k].status >= 0 {
          assert peaks[k] in Kept(before);
        }
      }
      ghost var ids := IdNums(peaks);
      ReIndex();
      IdNumsAre(peaks, ids);
    }

    /** The removal loop of compress, walking from the end of the list. */
    method DropDeleted() returns (nRemoved: int)
      modifies this`peaks
      ensures peaks == Kept(old(peaks))
      ensures nRemoved == |old(peaks)| - |peaks|
      ensures Distinct(old(peaks)) ==> Distinct(peaks)
    {
      var ps;
      ps, nRemoved := DropLoop(peaks);
      assert Distinct(peaks) ==> Distinct(ps) by {
        KeptExactly(peaks);
        DistinctIsPairwise(peaks);
        DistinctIsPairwise(ps);
      }
      peaks := ps;
    }

    /** reNumber: ids become positions and idLast the last position. */
    method ReNumber()
      requires Distinct(peaks)
      modifies this`idLast, this`indexMap, peaks
      ensures peaks == old(peaks) && idLast == |peaks| - 1
      ensures forall k | 0 <= k < |peaks| :: peaks[k].idNum == k && peaks[k].index == k && peaks[k].status == old(peaks[k].status)
      ensures forall k | 0 <= k < |peaks| :: k in indexMap && indexMap[k] == peaks[k]
      ensures forall id | id in indexMap :: 0 <= id < |peaks|
    {
      assert forall k | 0 <= k < |peaks| :: peaks[k] as object != this;
      NumberPeaks(peaks);
      idLast := |peaks| - 1;
      ghost var ids := IdNums(peaks);
      ReIndex();
      IndexMapOfFits(peaks, ids);
      NumberedIndexMap(peaks, ids, indexMap);
    }

    /**
     * removePeak: reading the last peak of an empty list throws; otherwise
     * idLast steps back when the peak was the last one, its first occurrence is
     * removed and the list is re-indexed.
     */
    method RemovePeak(peak: Peak) returns (thrown: Option<Error>)
      requires Distinct(peaks)
      modifies this`peaks, this`idLast, this`indexMap, peaks
      ensures old(peaks) == [] ==> thrown.Some? && peaks == [] && idLast == old(idLast)
      ensures old(peaks) != [] ==> thrown == None && peaks == RemoveFirst(old(peaks), peak) && peak !in peaks
      ensures old(peaks) != [] ==> idLast == old(idLast) - (if old(peaks[|peaks| - 1]) == peak then 1 else 0)
      ensures old(peaks) != [] ==> indexMap == IndexMapOf(peaks, IdNums(peaks))
      ensures old(peaks) != [] ==> forall k | 0 <= k < |peaks| :: peaks[k].index == k
      ensures Distinct(peaks)
    {
      if peaks == [] {
        return Some(IndexOutOfBounds("Index -1 out of bounds for length 0"));
      }
      thrown := None;
      if peaks[|peaks| - 1] == peak {
        idLast := idLast - 1;
      }
      RemoveFromList(peak);
      assert forall k | 0 <= k < |peaks| :: peaks[k] as object != this;
      ghost var ids := IdNums(peaks);
      ReIndex();
      IdNumsAre(peaks, ids);
    }

    /** The list's own removal of the first occurrence of a peak. */
    method RemoveFromList(peak: Peak)
      requires Distinct(peaks)
      modifies this`peaks
      ensures peaks == RemoveFirst(old(peaks), peak) && peak !in peaks && Distinct(peaks)
      ensures forall k | 0 <= k < |peaks| :: peaks[k] in old(peaks)
    {
      DistinctIsPairwise(peaks);
      RemoveFirstDistinct(peaks, peak);
      DistinctIsPairwise(RemoveFirst(peaks, peak));
      peaks := RemoveFirst(peaks, peak);
      forall k | 0 <= k < |peaks| ensures peaks[k] in old(peaks) {
        assert peaks[k] in multiset(peaks);
      }
    }

    /** getListDim: the first dimension whose name equals s ignoring case, or -1. */
    method GetListDim(s: string) returns (iDim: int)
      ensures iDim == FirstNamed(Names(dims), s)
    {
      iDim := -1;
      var i := 0;
      while i < |dims|
        invariant 0 <= i <= |dims|
        invariant forall k | 0 <= k < i :: !EqualsIgnoreCase(dims[k].name, s)
      {
        if EqualsIgnoreCase(dims[i].name, s) {
          iDim := i;
          FirstNamedIs(Names(dims), s, i);
          return;
        }
        i := i + 1;
      }
      FirstNamedIs(Names(dims), s, -1);
    }

    /** getPeakDim: the dimension a specifier names, by name first and then by number, which must lie in [0, nDim). */
    method GetPeakDim(spec: string) returns (r: Result<int>)
      ensures r == PeakDimOf(Names(dims), spec)
    {
      var iDim := 0;
      var field := DimField(spec);
      if field.Some? {
        iDim := GetListDim(field.value);
        if iDim == -1 {
          iDim := NumberedDim(field.value);
        }
      }
      if iDim < 0 || iDim >= |dims| {
        return Err(BadDim(spec));
      }
      return Ok(iDim);
    }

    /**
     * getDimsForDataset: for each peak dimension in turn, the first unused
     * dataset dimension with the same label or, in loose mode, the same
     * nucleus; an unmatched dimension throws.
     */
    method GetDimsForDataset(ds: Dataset, looseMode: bool) returns (r: Result<seq<int>>)
      requires |ds.labels| == |ds.nuclei|
      ensures r == MatchedDims(dims, ds, looseMode)
    {
      r := MatchDimsInArrays(dims, ds, looseMode);
    }

    /** getProperty: the stored value, or "" when the name is absent. */
    function GetProperty(name: string): (r: string)
      reads this
      ensures !HasProperty(name) ==> r == ""
    {
      if name in properties then properties[name] else ""
    }

    predicate HasProperty(name: string)
      reads this
    {
      name in properties
    }

    method SetProperty(name: string, value: string)
      modifies this`properties
      ensures HasProperty(name) && GetProperty(name) == value
      ensures forall n | n != name :: (n in properties <==> n in old(properties)) && GetProperty(n) == old(GetProperty(n))
    {
      properties := properties[name := value];
    }

    /** addSearchDim(iDim, tol): drops any entry for iDim, then appends the new one. */
    method AddSearchDim(iDim: int, tol: real)
      modifies this`searchDims
      ensures searchDims == WithoutDim(old(searchDims), iDim) + [SearchDim(iDim, tol)]
    {
      var kept: seq<SearchDim> := [];
      for i := 0 to |searchDims|
        invariant kept == WithoutDim(searchDims[..i], iDim)
      {
        assert searchDims[..i + 1][..i] == searchDims[..i];
        if searchDims[i].iDim != iDim {
          kept := kept + [searchDims[i]];
        }
      }
      assert searchDims[..|searchDims|] == searchDims;
      searchDims := kept + [SearchDim(iDim, tol)];
    }

    /** addSearchDim(dimName, tol): the dimension is looked up by name; an unknown name gives dimension -1. */
    method AddSearchDimNamed(dimName: string, tol: real)
      modifies this`searchDims
      ensures searchDims == WithoutDim(old(searchDims), FirstNamed(Names(dims), dimName)) + [SearchDim(FirstNamed(Names(dims), dimName), tol)]
    {
      var iDim := GetListDim(dimName);
      AddSearchDim(iDim, tol);
    }

    /**
     * setSearchDims: the space-separated text is read as (name, tolerance)
     * pairs; an odd token count throws before anything changes, and a
     * tolerance that does not parse throws after the pairs before it were added.
     */
    method SetSearchDims(s: string) returns (thrown: Option<Error>)
      modifies this`searchDims
      ensures var elements := JavaSplit(s, ' ');
        (|elements| % 2 != 0 ==> thrown.Some? && thrown.value.IllegalArgument? && searchDims == old(searchDims))
        && (|elements| % 2 == 0 ==>
              (searchDims, thrown.None?) == PairsApplied(Names(dims), elements, Tolerances(elements), |elements| / 2)
              && (thrown.Some? ==> thrown.value.NumberFormat?))
    {
      var elements := JavaSplit(s, ' ');
      if |elements| % 2 != 0 {
        return Some(IllegalArgument("Invalid search dim string: " + s));
      }
      ghost var tols := Tolerances(elements);
      searchDims := [];
      var k := 0;
      while k < |elements| / 2
        invariant 0 <= k <= |elements| / 2
        invariant PairsApplied(Names(dims), elements, tols, k) == (searchDims, true)
      {
        var tol := ParseDouble(elements[2 * k + 1]);
        if tol.None? {
          PairsStayFailed(Names(dims), elements, tols, k + 1, |elements| / 2);
          return Some(NumberFormat(elements[2 * k + 1]));
        }
        ghost var before := searchDims;
        AddSearchDimNamed(elements[2 * k], tol.value);
        PairsAppliedStep(Names(dims), elements, tols, k, before);
        k := k + 1;
      }
      return None;
    }
  }

  /** The map reIndex builds: each id to the last peak of the list that carries it. */
  function IndexMapOf(ps: seq<Peak>, ids: seq<int>): map<int, Peak>
    requires |ids| == |ps|
  {
    if ps == [] then map[]
    else IndexMapOf(ps[..|ps| - 1], ids[..|ps| - 1])[ids[|ps| - 1] := ps[|ps| - 1]]
  }

  /** The map reIndex builds fits the list. */
  lemma {:induction false} IndexMapOfFits(ps: seq<Peak>, ids: seq<int>)
    requires |ids| == |ps|
    ensures IndexMapFits(ps, ids, IndexMapOf(ps, ids))
  {
    if ps != [] {
      var n := |ps| - 1;
      IndexMapOfFits(ps[..n], ids[..n]);
      IndexMapExtends(ps, ids, IndexMapOf(ps[..n], ids[..n]));
    }
  }

  /** Recording the last peak over a map that fits the peaks before it gives a map that fits the whole list. */
  lemma {:induction false} IndexMapExtends(ps: seq<Peak>, ids: seq<int>, m: map<int, Peak>)
    requires |ids| == |ps| > 0 && IndexMapFits(ps[..|ps| - 1], ids[..|ps| - 1], m)
    ensures IndexMapFits(ps, ids, m[ids[|ps| - 1] := ps[|ps| - 1]])
  {
    var n := |ps| - 1;
    var m' := m[ids[n] := ps[n]];
    forall id | id in m' ensures exists k | 0 <= k < |ps| :: m'[id] == ps[k] && ids[k] == id {
      if id != ids[n] {
        var k :| 0 <= k < n && m[id] == ps[..n][k] && ids[..n][k] == id;
        assert m'[id] == ps[k] && ids[k] == id;
      }
    }
    forall k | 0 <= k < |ps| ensures ids[k] in m' {
      if k < n {
        assert ids[..n][k] == ids[k];
      }
    }
    forall k | 0 <= k < |ps| && LastWithId(ids, k, |ps|) ensures m'[ids[k]] == ps[k] {
      if k < n {
        assert LastWithId(ids[..n], k, n);
        assert ids[..n][k] == ids[k] && ps[..n][k] == ps[k];
      }
    }
  }

  lemma {:induction false} IndexMapOfStep(ps: seq<Peak>, ids: seq<int>, i: nat)
    requires |ids| == |ps| && i < |ps|
    ensures IndexMapOf(ps[..i + 1], ids[..i + 1]) == IndexMapOf(ps[..i], ids[..i])[ids[i] := ps[i]]
  {
    assert ps[..i + 1][..i] == ps[..i] && ids[..i + 1][..i] == ids[..i];
  }

  lemma {:induction false} IdNumsAre(ps: seq<Peak>, ids: seq<int>)
    requires |ids| == |ps| && forall k | 0 <= k < |ps| :: ps[k].idNum == ids[k]
    ensures IdNums(ps) == ids
  {
  }

  /** When every id equals its position, the map is exactly position to peak. */
  lemma {:induction false} NumberedIndexMap(ps: seq<Peak>, ids: seq<int>, m: map<int, Peak>)
    requires |ids| == |ps| && IndexMapFits(ps, ids, m)
    requires forall k | 0 <= k < |ps| :: ids[k] == k
    ensures forall k | 0 <= k < |ps| :: k in m && m[k] == ps[k]
    ensures forall id | id in m :: 0 <= id < |ps|
  {
    forall k | 0 <= k < |ps| ensures k in m && m[k] == ps[k] {
      assert ids[k] == k && LastWithId(ids, k, |ps|);
    }
    forall id | id in m ensures 0 <= id < |ps| {
      var k :| 0 <= k < |ps| && m[id] == ps[k] && ids[k] == id;
    }
  }

  lemma {:induction false} FirstNamedIs(names: seq<string>, s: string, k: int)
    requires -1 <= k < |names|
    requires k >= 0 ==> EqualsIgnoreCase(names[k], s)
    requires forall i | 0 <= i < |names| && (k < 0 || i < k) :: !EqualsIgnoreCase(names[i], s)
    ensures FirstNamed(names, s) == k
  {
  }

  /** The choice of getDimsForDataset for one peak dimension: by label, then in loose mode by nucleus. */
  method FindDim(dim: SpectralDim, ds: Dataset, looseMode: bool, used: array<bool>) returns (i: int)
    requires |ds.labels| == |ds.nuclei| == used.Length
    ensures i == ChooseDim(dim, ds, looseMode, used[..])
  {
    i := FindUnused(used, ds.labels, dim.name);
    if i < 0 && looseMode {
      i := FindUnused(used, ds.nuclei, dim.nucleus);
    }
  }

  /** The matching loop of getDimsForDataset, over an array of chosen dimensions and an array of used flags. */
  method MatchDimsInArrays(dims: seq<SpectralDim>, ds: Dataset, looseMode: bool) returns (r: Result<seq<int>>)
    requires |ds.labels| == |ds.nuclei|
    ensures r == MatchedDims(dims, ds, looseMode)
  {
    var nDim := |dims|;
    var dataDim := |ds.labels|;
    var pdim := new int[nDim];
    var used := new bool[dataDim](_ => false);
    assert used[..] == NoneUsed(dataDim);
    for j := 0 to nDim
      invariant MatchDims(dims, ds, looseMode, j) == Ok((pdim[..j], used[..]))
    {
      ghost var before := used[..];
      ghost var prefix := pdim[..j];
      var i := FindDim(dims[j], ds, looseMode, used);
      if i < 0 {
        MatchedDimsFail(dims, ds, looseMode, j, prefix, before);
        return Err(NoMatch(dims[j].name));
      }
      MatchDimsStep(dims, ds, looseMode, j, prefix, before, i);
      Assign(pdim, used, j, i);
    }
    assert pdim[..] == pdim[..nDim];
    return Ok(pdim[..]);
  }

  /** Peak dimension j takes dataset dimension i, which becomes used. */
  method Assign(pdim: array<int>, used: array<bool>, j: nat, i: nat)
    requires j < pdim.Length && i < used.Length
    modifies pdim, used
    ensures pdim[..j + 1] == old(pdim[..j]) + [i] && used[..] == old(used[..])[i := true]
  {
    pdim[j] := i;
    used[i] := true;
    assert pdim[..j + 1] == old(pdim[..j]) + [i];
  }

  /** The search of getDimsForDataset for a free dataset dimension with the given key. */
  method FindUnused(used: array<bool>, keys: seq<string>, key: string) returns (i: int)
    requires used.Length == |keys|
    ensures i == FirstUnused(used[..], keys, key)
  {
    i := 0;
    while i < used.Length
      invariant 0 <= i <= used.Length
      invariant forall k | 0 <= k < i :: used[k] || keys[k] != key
    {
      if !used[i] && keys[i] == key {
        FirstUnusedIs(used[..], keys, key, i);
        return;
      }
      i := i + 1;
    }
    FirstUnusedIs(used[..], keys, key, -1);
    i := -1;
  }

  lemma {:induction false} FirstUnusedIs(used: seq<bool>, keys: seq<string>, key: string, i: int)
    requires |used| == |keys| && -1 <= i < |keys|
    requires i >= 0 ==> !used[i] && keys[i] == key
    requires forall k | 0 <= k < |keys| && (i < 0 || k < i) :: used[k] || keys[k] != key
    ensures FirstUnused(used, keys, key) == i
  {
    if |keys| > 0 && !(!used[0] && keys[0] == key) {
      FirstUnusedIs(used[1..], keys[1..], key, if i < 0 then -1 else i - 1);
    }
  }
}
