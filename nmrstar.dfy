/**
 * Row rules of the NMR-STAR 3 reader: the bond order of a _Chem_comp_bond
 * row, the flags of a _Peak row, the grouping of _Peak_coupling and
 * _Spectral_transition_char rows into one coupling per peak dimension, the
 * defaults for missing identifiers and bounds, the guards that skip or refuse
 * a peak list, the model tracking of conformer rows, and the argument check
 * of process.
 */
module NMRStarReader {
  import opened Wrappers
  import opened Text

  // ---------------------------------------------------------------------
  // Bond order

  datatype Order = SINGLE | DOUBLE | TRIPLE

  /** The bond order a _Chem_comp_bond.Value_order text names, by a case-insensitive prefix; SINGLE when none matches. */
  function BondOrder(orderString: string): (o: Order)
    ensures o == DOUBLE <==> StartsWith(Upper(orderString), "DOUB")
    ensures o == TRIPLE <==> StartsWith(Upper(orderString), "TRIP")
  {
    var u := Upper(orderString);
    if StartsWith(u, "SING") then SINGLE
    else if StartsWith(u, "DOUB") then DOUBLE
    else if StartsWith(u, "TRIP") then TRIPLE
    else SINGLE
  }

  /** Upper-casing a lower-cased text is the same as upper-casing the text. */
  lemma {:induction false} UpperOfLower(s: string)
    ensures Upper(Lower(s)) == Upper(s)
  {
    forall i | 0 <= i < |s|
      ensures Upper(Lower(s))[i] == Upper(s)[i]
    {
      assert Lower(s)[i] == LowerChar(s[i]);
    }
  }

  /** The order does not depend on the case of the text. */
  lemma {:induction false} BondOrderIgnoresCase(s: string)
    ensures BondOrder(Lower(s)) == BondOrder(s)
  {
    UpperOfLower(s);
  }

  // ---------------------------------------------------------------------
  // Peak flags

  /** Flag i of a _Peak.Flag text: set iff the text has '1' at position i; positions past the end are clear. */
  predicate FlagAt(value: string, i: nat)
  {
    i < |value| && value[i] == '1'
  }

  /** Peak.setFlag for every flag index, read from the _Peak.Flag text. */
  method SetFlags(flags: array<bool>, value: string)
    modifies flags
    ensures forall i | 0 <= i < flags.Length :: flags[i] == FlagAt(value, i)
  {
    var iFlag := 0;
    while iFlag < flags.Length
      invariant 0 <= iFlag <= flags.Length
      invariant forall i | 0 <= i < iFlag :: flags[i] == FlagAt(value, i)
    {
      if |value| > iFlag {
        flags[iFlag] := value[iFlag] == '1';
      } else {
        flags[iFlag] := false;
      }
      iFlag := iFlag + 1;
    }
  }

  /** The flag text of a peak: '1' for a set flag and '0' for a clear one, so that reading it back gives the flags. */
  function FlagText(flags: seq<bool>): (r: string)
    ensures |r| == |flags|
    ensures forall i: nat | i < |flags| :: FlagAt(r, i) == flags[i]
  {
    if flags == [] then ""
    else FlagText(flags[..|flags| - 1]) + [if flags[|flags| - 1] then '1' else '0']
  }

  // ---------------------------------------------------------------------
  // Runs of coupling and transition rows

  /** Row i closes a run: it is the last row, or the next row has another peak or spectral dimension. */
  predicate EndsRun(peakIds: seq<int>, dims: seq<int>, i: nat)
    requires |peakIds| == |dims|
  {
    i + 1 >= |peakIds| || peakIds[i + 1] != peakIds[i] || dims[i + 1] != dims[i]
  }

  /** Rows [s, e) form one run: only the last of them closes a run. */
  predicate IsRun(peakIds: seq<int>, dims: seq<int>, s: nat, e: nat)
    requires |peakIds| == |dims|
  {
    s < e && EndsRun(peakIds, dims, e - 1)
    && forall k | s <= k < e - 1 :: !EndsRun(peakIds, dims, k)
  }

  /** runs are consecutive maximal runs that together cover rows [s, t) in order. */
  predicate RunsBetween(peakIds: seq<int>, dims: seq<int>, runs: seq<(nat, nat)>, s: nat, t: nat)
    requires |peakIds| == |dims|
    decreases |runs|
  {
    if runs == [] then s == t
    else
      runs[0].0 == s && runs[0].1 <= t && IsRun(peakIds, dims, s, runs[0].1)
      && RunsBetween(peakIds, dims, runs[1..], runs[0].1, t)
  }

  /** The last row of the run that starts at row s. */
  function RunEnd(peakIds: seq<int>, dims: seq<int>, s: nat): (e: nat)
    requires |peakIds| == |dims| && s < |peakIds|
    ensures s <= e < |peakIds| && IsRun(peakIds, dims, s, e + 1)
    decreases |peakIds| - s
  {
    if EndsRun(peakIds, dims, s) then s else RunEnd(peakIds, dims, s + 1)
  }

  /** The runs of rows [s, n), one half-open range each, in order. */
  function RunsFrom(peakIds: seq<int>, dims: seq<int>, s: nat): (r: seq<(nat, nat)>)
    requires |peakIds| == |dims| && s <= |peakIds|
    ensures forall j | 0 <= j < |r| :: s <= r[j].0 < r[j].1 <= |peakIds|
    decreases |peakIds| - s
  {
    if s == |peakIds| then []
    else
      var e := RunEnd(peakIds, dims, s);
      [(s, e + 1)] + RunsFrom(peakIds, dims, e + 1)
  }

  /** The maximal runs of rows with equal (Peak_ID, Spectral_dim_ID). */
  function Runs(peakIds: seq<int>, dims: seq<int>): (r: seq<(nat, nat)>)
    requires |peakIds| == |dims|
    ensures forall j | 0 <= j < |r| :: r[j].0 < r[j].1 <= |peakIds|
  {
    RunsFrom(peakIds, dims, 0)
  }

  /** The runs from row s cover rows [s, n) consecutively, each one maximal. */
  lemma {:induction false} RunsFromBetween(peakIds: seq<int>, dims: seq<int>, s: nat)
    requires |peakIds| == |dims| && s <= |peakIds|
    ensures RunsBetween(peakIds, dims, RunsFrom(peakIds, dims, s), s, |peakIds|)
    decreases |peakIds| - s
  {
    if s < |peakIds| {
      var e := RunEnd(peakIds, dims, s);
      var rest := RunsFrom(peakIds, dims, e + 1);
      RunsFromBetween(peakIds, dims, e + 1);
      assert RunsFrom(peakIds, dims, s) == [(s, e + 1)] + rest;
      assert ([(s, e + 1)] + rest)[1..] == rest;
    }
  }

  /** Consecutive maximal runs covering [s, n) are exactly the runs from s: the split is unique. */
  lemma {:induction false} BetweenIsRunsFrom(peakIds: seq<int>, dims: seq<int>, runs: seq<(nat, nat)>, s: nat)
    requires |peakIds| == |dims| && s <= |peakIds|
    requires RunsBetween(peakIds, dims, runs, s, |peakIds|)
    ensures runs == RunsFrom(peakIds, dims, s)
    decreases |runs|
  {
    if runs != [] {
      var e := RunEnd(peakIds, dims, s);
      assert runs[0].1 == e + 1;
      BetweenIsRunsFrom(peakIds, dims, runs[1..], e + 1);
      assert runs == [runs[0]] + runs[1..];
    }
  }

  /** Extends a covering of [s, from) by the run [from, to). */
  lemma {:induction false} RunsStep(peakIds: seq<int>, dims: seq<int>, runs: seq<(nat, nat)>, s: nat, from: nat, to: nat)
    requires |peakIds| == |dims|
    requires RunsBetween(peakIds, dims, runs, s, from) && IsRun(peakIds, dims, from, to)
    ensures RunsBetween(peakIds, dims, runs + [(from, to)], s, to)
    decreases |runs|
  {
    if runs != [] {
      RunsStep(peakIds, dims, runs[1..], runs[0].1, from, to);
      assert (runs + [(from, to)])[1..] == runs[1..] + [(from, to)];
    }
  }

  /** Rows inside one run share the peak and the spectral dimension of its first row. */
  lemma {:induction false} SameKeyInRun(peakIds: seq<int>, dims: seq<int>, s: nat, k: nat)
    requires |peakIds| == |dims| && s <= k < |peakIds|
    requires forall m | s <= m < k :: !EndsRun(peakIds, dims, m)
    ensures peakIds[k] == peakIds[s] && dims[k] == dims[s]
    decreases k - s
  {
    if s < k {
      SameKeyInRun(peakIds, dims, s, k - 1);
      assert !EndsRun(peakIds, dims, k - 1);
    }
  }

  /** Each run of a covering starts where the one before it ends and is a maximal run. */
  lemma {:induction false} RunsBetweenEach(peakIds: seq<int>, dims: seq<int>, runs: seq<(nat, nat)>, s: nat, t: nat)
    requires |peakIds| == |dims|
    requires RunsBetween(peakIds, dims, runs, s, t)
    ensures forall j | 0 <= j < |runs| :: IsRun(peakIds, dims, runs[j].0, runs[j].1)
    ensures forall j | 0 < j < |runs| :: runs[j].0 == runs[j - 1].1
    decreases |runs|
  {
    if runs != [] {
      var rest := runs[1..];
      RunsBetweenEach(peakIds, dims, rest, runs[0].1, t);
      assert forall j | 0 < j < |runs| :: runs[j] == rest[j - 1];
      assert |rest| > 0 ==> rest[0].0 == runs[0].1;
    }
  }

  /** The rows of a covering of [s, t), run after run, are s, ..., t-1. */
  lemma {:induction false} CoveredBetween(peakIds: seq<int>, dims: seq<int>, runs: seq<(nat, nat)>, s: nat, t: nat)
    requires |peakIds| == |dims|
    requires RunsBetween(peakIds, dims, runs, s, t)
    ensures s <= t && Covered(runs) == Rows(s, t)
    decreases |runs|
  {
    if runs != [] {
      CoveredBetween(peakIds, dims, runs[1..], runs[0].1, t);
      assert Rows(s, runs[0].1) + Rows(runs[0].1, t) == Rows(s, t);
    }
  }

  /**
   * The runs cover rows 0..n-1 exactly once and in order; within a run every
   * row has the peak and dimension of its first row, and two neighbouring runs
   * differ in peak or dimension.
   */
  lemma {:induction false} RunsAreMaximal(peakIds: seq<int>, dims: seq<int>)
    requires |peakIds| == |dims|
    ensures Covered(Runs(peakIds, dims)) == Rows(0, |peakIds|)
    ensures forall j, k | 0 <= j < |Runs(peakIds, dims)| && Runs(peakIds, dims)[j].0 <= k < Runs(peakIds, dims)[j].1 ::
      peakIds[k] == peakIds[Runs(peakIds, dims)[j].0] && dims[k] == dims[Runs(peakIds, dims)[j].0]
    ensures forall j | 0 < j < |Runs(peakIds, dims)| ::
      var a := Runs(peakIds, dims)[j - 1].0; var b := Runs(peakIds, dims)[j].0;
      peakIds[a] != peakIds[b] || dims[a] != dims[b]
  {
    var runs := Runs(peakIds, dims);
    RunsFromBetween(peakIds, dims, 0);
    RunsBetweenEach(peakIds, dims, runs, 0, |peakIds|);
    CoveredBetween(peakIds, dims, runs, 0, |peakIds|);
    forall j, k | 0 <= j < |runs| && runs[j].0 <= k < runs[j].1
      ensures peakIds[k] == peakIds[runs[j].0] && dims[k] == dims[runs[j].0]
    {
      SameKeyInRun(peakIds, dims, runs[j].0, k);
    }
    forall j | 0 < j < |runs|
      ensures peakIds[runs[j - 1].0] != peakIds[runs[j].0] || dims[runs[j - 1].0] != dims[runs[j].0]
    {
      var last := runs[j].0 - 1;
      assert IsRun(peakIds, dims, runs[j - 1].0, runs[j - 1].1);
      SameKeyInRun(peakIds, dims, runs[j - 1].0, last);
    }
  }

  /** Rows s, s+1, ..., e-1. */
  function Rows(s: nat, e: nat): (r: seq<nat>)
    requires s <= e
    ensures |r| == e - s && forall i | 0 <= i < e - s :: r[i] == s + i
  {
    seq(e - s, i requires 0 <= i < e - s => s + i)
  }

  /** The rows of the runs, one run after the other. */
  function Covered(runs: seq<(nat, nat)>): seq<nat>
  {
    if runs == [] then []
    else if runs[0].0 <= runs[0].1 then Rows(runs[0].0, runs[0].1) + Covered(runs[1..])
    else Covered(runs[1..])
  }

  /** The columns of a _Peak_coupling loop, one entry per row. */
  datatype CouplingLoop = CouplingLoop(
    peakIds: seq<int>, dims: seq<int>, values: seq<real>, types: seq<string>,
    strongs: seq<real>, intensities: seq<real>)
  {
    predicate Rectangular()
    {
      |dims| == |peakIds| && |values| == |peakIds| && |types| == |peakIds|
      && |strongs| == |peakIds| && |intensities| == |peakIds|
    }
  }

  /** The coupling pattern a run sets on the multiplet of its peak dimension (dimensions counted from 0). */
  datatype Coupling = Coupling(
    peakId: int, dim: int, values: seq<real>, types: seq<string>, strongs: seq<real>, intensity: real)

  /** The pattern built from rows [from, to): the coupling columns of those rows, the intensity of the first. */
  function PatternOf(c: CouplingLoop, run: (nat, nat)): Coupling
    requires c.Rectangular() && run.0 < run.1 <= |c.peakIds|
  {
    Coupling(c.peakIds[run.0], c.dims[run.0] - 1, c.values[run.0..run.1], c.types[run.0..run.1],
      c.strongs[run.0..run.1], c.intensities[run.0])
  }

  /** Each range of runs is non-empty and within the first n rows. */
  predicate Within(runs: seq<(nat, nat)>, n: nat)
  {
    forall j | 0 <= j < |runs| :: runs[j].0 < runs[j].1 <= n
  }

  /** The pattern of each run. */
  function Patterns(c: CouplingLoop, runs: seq<(nat, nat)>): (r: seq<Coupling>)
    requires c.Rectangular() && Within(runs, |c.peakIds|)
    ensures |r| == |runs|
  {
    seq(|runs|, j requires 0 <= j < |runs| => PatternOf(c, runs[j]))
  }

  /**
   * The coupling rows of a peak list: one pattern per run, set on the
   * multiplet of the run's peak and dimension; the from/to cursors of the
   * loop mark the run's rows.
   */
  method ReadCouplings(c: CouplingLoop) returns (patterns: seq<Coupling>)
    requires c.Rectangular()
    ensures patterns == Patterns(c, Runs(c.peakIds, c.dims))
  {
    var n := |c.peakIds|;
    var from := 0;
    var to := 0;
    ghost var runs: seq<(nat, nat)> := [];
    patterns := [];
    for i := 0 to n
      invariant from <= i && (i == n ==> from == n)
      invariant RunsBetween(c.peakIds, c.dims, runs, 0, from)
      invariant forall k | from <= k < i :: !EndsRun(c.peakIds, c.dims, k)
      invariant i < n ==> c.peakIds[i] == c.peakIds[from] && c.dims[i] == c.dims[from]
      invariant Within(runs, from) && patterns == Patterns(c, runs)
    {
      var currentID := c.peakIds[from];
      var currentDim := c.dims[i] - 1;
      if i == n - 1 || c.peakIds[i + 1] != currentID || c.dims[i + 1] - 1 != currentDim {
        to := i + 1;
        ClosePattern(c, runs, from, i);
        patterns := patterns + [Coupling(currentID, currentDim, c.values[from..to], c.types[from..to],
          c.strongs[from..to], c.intensities[from])];
        runs := runs + [(from, to)];
        from := to;
      }
    }
    BetweenIsRunsFrom(c.peakIds, c.dims, runs, 0);
  }

  /** Closing the run [from, i] of a coupling loop: the covering grows by it, and the patterns by its pattern. */
  lemma {:induction false} ClosePattern(c: CouplingLoop, runs: seq<(nat, nat)>, from: nat, i: nat)
    requires c.Rectangular() && from <= i < |c.peakIds|
    requires RunsBetween(c.peakIds, c.dims, runs, 0, from) && Within(runs, from)
    requires forall k | from <= k < i :: !EndsRun(c.peakIds, c.dims, k)
    requires EndsRun(c.peakIds, c.dims, i)
    ensures RunsBetween(c.peakIds, c.dims, runs + [(from, i + 1)], 0, i + 1)
    ensures Within(runs + [(from, i + 1)], i + 1)
    ensures Patterns(c, runs + [(from, i + 1)]) == Patterns(c, runs) + [PatternOf(c, (from, i + 1))]
  {
    assert IsRun(c.peakIds, c.dims, from, i + 1);
    RunsStep(c.peakIds, c.dims, runs, 0, from, i + 1);
    var r := runs + [(from, i + 1)];
    assert forall j | 0 <= j < |runs| :: r[j] == runs[j];
  }

  /** Each range of runs is non-decreasing. */
  predicate Ordered(runs: seq<(nat, nat)>)
  {
    forall j | 0 <= j < |runs| :: runs[j].0 <= runs[j].1
  }

  /** The rows of each run: the components of one complex coupling each. */
  function RowGroups(runs: seq<(nat, nat)>): (r: seq<seq<nat>>)
    requires Ordered(runs)
    ensures |r| == |runs|
  {
    seq(|runs|, j requires 0 <= j < |runs| => Rows(runs[j].0, runs[j].1))
  }

  /**
   * The _Spectral_transition_char rows of a peak list: every row adds a
   * component, and the row that closes a run sets the collected components
   * as one complex coupling and clears the list.
   */
  method ReadTransitions(peakIds: seq<int>, dims: seq<int>) returns (couplings: seq<seq<nat>>)
    requires |peakIds| == |dims|
    ensures couplings == RowGroups(Runs(peakIds, dims))
  {
    var comps: seq<nat> := [];
    couplings := [];
    ghost var runs: seq<(nat, nat)> := [];
    ghost var from: nat := 0;
    for i := 0 to |peakIds|
      invariant from <= i && (i == |peakIds| ==> from == i)
      invariant comps == Rows(from, i)
      invariant RunsBetween(peakIds, dims, runs, 0, from)
      invariant forall k | from <= k < i :: !EndsRun(peakIds, dims, k)
      invariant Ordered(runs) && couplings == RowGroups(runs)
    {
      var currentID := peakIds[i];
      var currentDim := dims[i] - 1;
      comps := comps + [i];
      assert comps == Rows(from, i + 1);
      if i == |peakIds| - 1 || peakIds[i + 1] != currentID || dims[i + 1] - 1 != currentDim {
        CloseRun(peakIds, dims, runs, from, i);
        couplings := couplings + [comps];
        runs := runs + [(from, i + 1)];
        comps := [];
        from := i + 1;
      }
    }
    BetweenIsRunsFrom(peakIds, dims, runs, 0);
  }

  /** Closing the run [from, i] after a covering of [0, from): the covering grows by it, and so do its row groups. */
  lemma {:induction false} CloseRun(peakIds: seq<int>, dims: seq<int>, runs: seq<(nat, nat)>, from: nat, i: nat)
    requires |peakIds| == |dims| && from <= i
    requires RunsBetween(peakIds, dims, runs, 0, from) && Ordered(runs)
    requires forall k | from <= k < i :: !EndsRun(peakIds, dims, k)
    requires EndsRun(peakIds, dims, i)
    ensures RunsBetween(peakIds, dims, runs + [(from, i + 1)], 0, i + 1)
    ensures Ordered(runs + [(from, i + 1)])
    ensures RowGroups(runs + [(from, i + 1)]) == RowGroups(runs) + [Rows(from, i + 1)]
  {
    assert IsRun(peakIds, dims, from, i + 1);
    RunsStep(peakIds, dims, runs, 0, from, i + 1);
    var r := runs + [(from, i + 1)];
    assert forall j | 0 <= j < |runs| :: r[j] == runs[j];
  }

  // ---------------------------------------------------------------------
  // Default identifiers

  /**
   * The compound key of an atom row, entity assembly "." standing for "1";
   * rows whose entity is "?" are skipped.
   */
  function CompoundKey(entityAssemblyID: string, entityID: string, compIndexID: string): (r: Option<string>)
    ensures r.None? <==> entityID == "?"
  {
    if entityID == "?" then None
    else
      var assembly := if entityAssemblyID == "." then "1" else entityAssemblyID;
      Some(assembly + "." + entityID + "." + compIndexID)
  }

  /** The key splits at its dots into the assembly (defaulted), entity and residue identifiers. */
  lemma {:induction false} CompoundKeyParts(entityAssemblyID: string, entityID: string, compIndexID: string)
    requires entityID != "?"
    requires '.' !in entityID && '.' !in compIndexID && (entityAssemblyID == "." || '.' !in entityAssemblyID)
    ensures Split(CompoundKey(entityAssemblyID, entityID, compIndexID).value, '.')
      == [if entityAssemblyID == "." then "1" else entityAssemblyID, entityID, compIndexID]
  {
    var assembly := if entityAssemblyID == "." then "1" else entityAssemblyID;
    var parts := [assembly, entityID, compIndexID];
    assert Join(parts[1..][1..], ".") == compIndexID by {
      assert parts[1..][1..] == [compIndexID];
    }
    assert Join(parts[1..], ".") == entityID + "." + compIndexID by {
      assert parts[1..] == [entityID, compIndexID];
    }
    assert Join(parts, ".") == assembly + "." + entityID + "." + compIndexID;
    SplitJoin(parts, '.');
  }

  /** The asym label of entity number index: "." becomes the letter 'A' + index. */
  function AsymLabel(asymID: string, index: nat): (r: string)
    requires 'A' as int + index < 0xD800
    ensures r != "."
    ensures asymID != "." ==> r == asymID
  {
    if asymID == "." then [('A' as int + index) as char] else asymID
  }

  /** Entities without an asym label get distinct labels. */
  lemma {:induction false} AsymLabelsDistinct(i: nat, j: nat)
    requires 'A' as int + i < 0xD800 && 'A' as int + j < 0xD800 && i != j
    ensures AsymLabel(".", i) != AsymLabel(".", j)
  {
    assert AsymLabel(".", i)[0] != AsymLabel(".", j)[0];
  }

  /** The PDB chain label: "." takes the asym label. */
  function ChainLabel(pdbLabel: string, asymLabel: string): (r: string)
    ensures asymLabel != "." ==> r != "."
    ensures pdbLabel != "." ==> r == pdbLabel
  {
    if pdbLabel == "." then asymLabel else pdbLabel
  }

  /** The molecule name of an assembly: "?" becomes "noname". */
  function MoleculeName(name: string): (r: string)
    ensures r != "?"
    ensures name != "?" ==> r == name
  {
    if name == "?" then "noname" else name
  }

  // ---------------------------------------------------------------------
  // Default bounds

  /** The bounds of a dihedral row: the upper bound must parse; a lower bound "." becomes 1.8. */
  function DihedralBounds(lowerValue: string, upperValue: string): (r: Result<(real, real)>)
    ensures r.Ok? <==> ParseDouble(upperValue).Some? && (lowerValue == "." || ParseDouble(lowerValue).Some?)
    ensures r.Ok? ==> Some(r.value.1) == ParseDouble(upperValue)
    ensures r.Ok? && lowerValue == "." ==> r.value.0 == 1.8
    ensures r.Ok? && lowerValue != "." ==> Some(r.value.0) == ParseDouble(lowerValue)
  {
    match ParseDouble(upperValue)
    case None => Err(NumberFormat(upperValue))
    case Some(upper) =>
      if lowerValue == "." then Ok((1.8, upper))
      else match ParseDouble(lowerValue)
        case None => Err(NumberFormat(lowerValue))
        case Some(lower) => Ok((lower, upper))
  }

  /** The bounds of a distance row: an upper bound "." becomes 1000000.0 and a lower bound "." becomes 1.8. */
  function DistanceBounds(lowerValue: string, upperValue: string): (r: Result<(real, real)>)
    ensures r.Ok? <==>
      ((upperValue == "." || ParseDouble(upperValue).Some?) && (lowerValue == "." || ParseDouble(lowerValue).Some?))
    ensures r.Ok? && upperValue == "." ==> r.value.1 == 1000000.0
    ensures r.Ok? && upperValue != "." ==> Some(r.value.1) == ParseDouble(upperValue)
    ensures r.Ok? && lowerValue == "." ==> r.value.0 == 1.8
    ensures r.Ok? && lowerValue != "." ==> Some(r.value.0) == ParseDouble(lowerValue)
  {
    var upper := if upperValue == "." then Some(1000000.0) else ParseDouble(upperValue);
    if upper.None? then Err(NumberFormat(upperValue))
    else
      var lower := if lowerValue == "." then Some(1.8) else ParseDouble(lowerValue);
      if lower.None? then Err(NumberFormat(lowerValue))
      else Ok((lower.value, upper.value))
  }

  // ---------------------------------------------------------------------
  // Peak-list guards

  /**
   * The dimension count of a _Spectral_peak_list: None when the list is
   * skipped (text format, or a count of "?" or "."), the count otherwise;
   * more _Spectral_dim rows than dimensions is an IllegalArgumentException.
   * toInt is the reader's integer conversion, whose errors pass through.
   */
  function PeakListDims(dataFormat: string, nDimString: string, nSpectralDim: nat,
                        toInt: string -> Result<int>): (r: Result<Option<int>>)
    ensures r == Ok(None) <==> dataFormat == "text" || nDimString == "?" || nDimString == "."
    ensures r.Ok? && r.value.Some? ==> toInt(nDimString) == Ok(r.value.value) && nSpectralDim <= r.value.value
    ensures r.Err? && dataFormat != "text" && nDimString != "?" && nDimString != "." && toInt(nDimString).Ok?
      ==> r.error.IllegalArgument? && nSpectralDim > toInt(nDimString).value
  {
    if dataFormat == "text" then Ok(None)
    else if nDimString == "?" || nDimString == "." then Ok(None)
    else match toInt(nDimString)
      case Err(e) => Err(e)
      case Ok(nDim) =>
        if nSpectralDim > nDim then Err(IllegalArgument(TooManyDims(nSpectralDim, nDim)))
        else Ok(Some(nDim))
  }

  function TooManyDims(nSpectralDim: nat, nDim: int): string
  {
    "Too many _Spectral_dim values " + NatToString(nSpectralDim) + " " + IntToString(nDim)
  }

  // ---------------------------------------------------------------------
  // Conformer model tracking

  /** The texts of a conformer row the reader parses: Model_ID and the x, y, z coordinates. */
  datatype ConformerRow = ConformerRow(model: string, x: string, y: string, z: string)

  /** All three coordinates of a row are numbers Double.parseDouble accepts. */
  predicate CoordsParse(row: ConformerRow)
  {
    ParseDouble(row.x).Some? && ParseDouble(row.y).Some? && ParseDouble(row.z).Some?
  }

  /**
   * The Model_ID values of the accepted conformer rows (None marks a row the
   * reader skips: entity "?", or an unknown compound or atom), up to the first
   * row that stops the reading, and whether there was such a row. A row stops
   * the reading when Integer.parseInt refuses its Model_ID (its model is not
   * recorded) or when Double.parseDouble refuses one of its coordinates (its
   * model is recorded first).
   */
  function AcceptedModels(rows: seq<Option<ConformerRow>>): (r: (seq<int>, bool))
    ensures |r.0| <= |rows|
    decreases |rows|
  {
    if rows == [] then ([], false)
    else
      var prior := AcceptedModels(rows[..|rows| - 1]);
      var last := rows[|rows| - 1];
      if prior.1 then prior else RowStep(prior.0, last)
  }

  /** The accepted models and the stop flag after one more row, given the models before it. */
  function RowStep(ms: seq<int>, row: Option<ConformerRow>): (seq<int>, bool)
  {
    if row.None? then (ms, false)
    else match ParseInt(row.value.model)
      case None => (ms, true)
      case Some(m) => (ms + [m], FirstBadCoord(row.value).Some?)
  }

  /** Once a row stopped the reading, later rows change nothing. */
  lemma {:induction false} AcceptedModelsStop(models: seq<Option<ConformerRow>>, i: nat)
    requires i <= |models| && AcceptedModels(models[..i]).1
    ensures AcceptedModels(models) == AcceptedModels(models[..i])
    decreases |models|
  {
    if i < |models| {
      var init := models[..|models| - 1];
      assert init[..i] == models[..i];
      AcceptedModelsStop(init, i);
    } else {
      assert models[..i] == models;
    }
  }

  /** The model of the last accepted row, -1 before any. */
  function LastModel(ms: seq<int>): int
  {
    if ms == [] then -1 else ms[|ms| - 1]
  }

  /** The models whose coordinates are cleared, in order: each accepted row whose model differs from the row before. */
  function NewModels(ms: seq<int>): seq<int>
    decreases |ms|
  {
    if ms == [] then []
    else
      var init := ms[..|ms| - 1];
      NewModels(init) + (if ms[|ms| - 1] != LastModel(init) then [ms[|ms| - 1]] else [])
  }

  /**
   * The conformer rows: an accepted row whose model differs from the last
   * accepted one clears that model's coordinates and adds it to the active
   * set. A Model_ID that does not parse stops the reading with the earlier
   * rows applied; a coordinate that does not parse stops it after its row's
   * model has been recorded.
   */
  method TrackConformers(rows: seq<Option<ConformerRow>>) returns (nulled: seq<int>, selSet: set<int>, err: Option<Error>)
    ensures nulled == NewModels(AcceptedModels(rows).0)
    ensures selSet == set m | m in nulled
    ensures err.Some? <==> AcceptedModels(rows).1
    ensures err.Some? ==> err.value.NumberFormat?
  {
    var lastStructure := -1;
    nulled := [];
    selSet := {};
    err := None;
    ghost var ms: seq<int> := [];
    var i := 0;
    while i < |rows|
      invariant 0 <= i <= |rows|
      invariant AcceptedModels(rows[..i]) == (ms, false)
      invariant lastStructure == LastModel(ms)
      invariant nulled == NewModels(ms)
      invariant selSet == set m | m in nulled
      invariant err.None?
    {
      AcceptedModelsStep(rows, i, ms);
      ghost var ms' := RowStep(ms, rows[i]).0;
      lastStructure, nulled, selSet, err := ConformerRowStep(rows[i], lastStructure, nulled, selSet, ms);
      if err.Some? {
        AcceptedModelsStop(rows, i + 1);
        return;
      }
      ms := ms';
      i := i + 1;
    }
    assert rows[..i] == rows;
  }

  /** One conformer row: parse its model, clear a new model, then parse its coordinates. */
  method ConformerRowStep(row: Option<ConformerRow>, lastStructure: int, nulled: seq<int>, selSet: set<int>, ghost ms: seq<int>)
    returns (last': int, nulled': seq<int>, selSet': set<int>, err: Option<Error>)
    requires lastStructure == LastModel(ms) && nulled == NewModels(ms) && selSet == set m | m in nulled
    ensures err.Some? == RowStep(ms, row).1 && (err.Some? ==> err.value.NumberFormat?)
    ensures last' == LastModel(RowStep(ms, row).0) && nulled' == NewModels(RowStep(ms, row).0)
    ensures selSet' == set m | m in nulled'
  {
    last', nulled', selSet', err := lastStructure, nulled, selSet, None;
    if row.None? {
      return;
    }
    var structureNumber := ParseInt(row.value.model);
    if structureNumber.None? {
      err := Some(NumberFormat(row.value.model));
      return;
    }
    var intStructure := structureNumber.value;
    if intStructure != lastStructure {
      nulled' := nulled + [intStructure];
      selSet' := selSet + {intStructure};
    }
    last' := intStructure;
    NewModelsStep(ms, intStructure);
    var bad := FirstBadCoord(row.value);
    if bad.Some? {
      err := Some(NumberFormat(bad.value));
    }
  }

  /** The first of x, y, z (in that order) that Double.parseDouble refuses. */
  function FirstBadCoord(row: ConformerRow): (r: Option<string>)
    ensures r.None? <==> CoordsParse(row)
    ensures ParseDouble(row.x).None? ==> r == Some(row.x)
    ensures ParseDouble(row.x).Some? && ParseDouble(row.y).None? ==> r == Some(row.y)
    ensures ParseDouble(row.x).Some? && ParseDouble(row.y).Some? && ParseDouble(row.z).None? ==> r == Some(row.z)
  {
    if ParseDouble(row.x).None? then Some(row.x)
    else if ParseDouble(row.y).None? then Some(row.y)
    else if ParseDouble(row.z).None? then Some(row.z)
    else None
  }

  /** One more row: AcceptedModels of the longer prefix in terms of the shorter. */
  lemma {:induction false} AcceptedModelsStep(rows: seq<Option<ConformerRow>>, i: nat, ms: seq<int>)
    requires i < |rows| && AcceptedModels(rows[..i]) == (ms, false)
    ensures AcceptedModels(rows[..i + 1]) == RowStep(ms, rows[i])
  {
    assert rows[..i + 1][..i] == rows[..i];
  }

  /** One more accepted model: it is cleared when it differs from the last, and becomes the last. */
  lemma {:induction false} NewModelsStep(ms: seq<int>, m: int)
    ensures NewModels(ms + [m]) == NewModels(ms) + (if m != LastModel(ms) then [m] else [])
    ensures LastModel(ms + [m]) == m
  {
    assert (ms + [m])[..|ms|] == ms;
  }

  /** The last cleared model is the last accepted one (or -1). */
  lemma {:induction false} NewModelsLast(ms: seq<int>)
    ensures LastModel(NewModels(ms)) == LastModel(ms)
    decreases |ms|
  {
    if ms != [] {
      NewModelsLast(ms[..|ms| - 1]);
    }
  }

  /** Each entry differs from the one before it; the first is not -1. */
  predicate ChangesOnly(r: seq<int>)
  {
    forall k | 0 <= k < |r| :: r[k] != Before(r, k)
  }

  /** The entry before position k, -1 before the first. */
  function Before(r: seq<int>, k: nat): int
    requires k < |r|
  {
    if k == 0 then -1 else r[k - 1]
  }

  /** Each cleared model differs from the one cleared before it; the first is not -1. */
  lemma {:induction false} NewModelsChange(ms: seq<int>)
    ensures ChangesOnly(NewModels(ms))
    decreases |ms|
  {
    if ms != [] {
      var init := ms[..|ms| - 1];
      var x := ms[|ms| - 1];
      var prior := NewModels(init);
      NewModelsChange(init);
      NewModelsLast(init);
      if x != LastModel(init) {
        var r := prior + [x];
        assert NewModels(ms) == r;
        forall k | 0 <= k < |r|
          ensures r[k] != Before(r, k)
        {
          if k < |prior| {
            assert r[k] == prior[k] && Before(r, k) == Before(prior, k);
          } else {
            assert r[k] == x && Before(r, k) == LastModel(prior);
          }
        }
      } else {
        assert NewModels(ms) == prior + [];
        assert prior + [] == prior;
      }
    }
  }

  /** Every accepted model other than -1 is cleared once its first row is read, and only accepted models are. */
  lemma {:induction false} NewModelsElements(ms: seq<int>)
    ensures forall m | m in NewModels(ms) :: m in ms
    ensures forall m | m in ms && m != -1 :: m in NewModels(ms)
    decreases |ms|
  {
    if ms != [] {
      var init := ms[..|ms| - 1];
      var x := ms[|ms| - 1];
      NewModelsElements(init);
      assert ms == init + [x];
      if x != LastModel(init) {
        assert x in NewModels(ms);
      } else if x != -1 {
        assert init[|init| - 1] == x;
        assert x in NewModels(init);
      }
    }
  }

  // ---------------------------------------------------------------------
  // process(argv)

  /** What a call of process does: the whole build, a copy of chemical shift sets, or nothing. */
  datatype Action = BuildAll | CopyShifts(fromSet: int, toSet: int) | NoAction

  /** argv[i] as Java reads it: out of range is an ArrayIndexOutOfBoundsException. */
  function Arg(argv: seq<string>, i: nat): (r: Result<string>)
    ensures r.Ok? <==> i < |argv|
    ensures r.Ok? ==> r.value == argv[i]
  {
    if i < |argv| then Ok(argv[i]) else Err(IndexOutOfBounds(NatToString(i)))
  }

  /** The shift-set copy with its set numbers read by Integer.parseInt from argv[i] and argv[i + 1]. */
  function ShiftSets(argv: seq<string>, i: nat): (r: Result<Action>)
    ensures r.Ok? ==> r.value.CopyShifts? && i + 1 < |argv|
    ensures r.Ok? ==> ParseInt(argv[i]) == Some(r.value.fromSet) && ParseInt(argv[i + 1]) == Some(r.value.toSet)
  {
    match Arg(argv, i)
    case Err(e) => Err(e)
    case Ok(a) =>
      match ParseInt(a)
      case None => Err(NumberFormat(a))
      case Some(fromSet) =>
        match Arg(argv, i + 1)
        case Err(e) => Err(e)
        case Ok(b) =>
          match ParseInt(b)
          case None => Err(NumberFormat(b))
          case Some(toSet) => Ok(CopyShifts(fromSet, toSet))
  }

  function Usage(): string { "?shifts fromSet toSet?" }

  /**
   * process(argv) as written: any count other than 0 or 3 is refused; with
   * three arguments whose third is a prefix of "shifts", the set numbers are
   * read from argv[3] and argv[4].
   */
  function ProcessAsWritten(argv: seq<string>): (r: Result<Action>)
  {
    if |argv| != 0 && |argv| != 3 then Err(IllegalArgument(Usage()))
    else if |argv| == 0 then Ok(BuildAll)
    else if StartsWith("shifts", argv[2]) then ShiftSets(argv, 3)
    else Ok(NoAction)
  }

  /** As written, the shifts branch can never run: it always reads past the end of argv. */
  lemma {:induction false} ProcessShiftsUnreachable(argv: seq<string>)
    ensures !(ProcessAsWritten(argv).Ok? && ProcessAsWritten(argv).value.CopyShifts?)
    ensures |argv| == 3 && StartsWith("shifts", argv[2]) ==> ProcessAsWritten(argv) == Err(IndexOutOfBounds("3"))
  {
    if |argv| == 3 && StartsWith("shifts", argv[2]) {
      assert Arg(argv, 3) == Err(IndexOutOfBounds("3"));
    }
  }

  /**
   * process(argv) with the three arguments of the usage message read where
   * they are: argv[0] a prefix of "shifts", then fromSet and toSet.
   */
  function Process(argv: seq<string>): (r: Result<Action>)
    ensures r.Ok? ==> |argv| == 0 || |argv| == 3
    ensures |argv| != 0 && |argv| != 3 ==> r.Err? && r.error.IllegalArgument?
    ensures r == Ok(BuildAll) <==> |argv| == 0
  {
    if |argv| != 0 && |argv| != 3 then Err(IllegalArgument(Usage()))
    else if |argv| == 0 then Ok(BuildAll)
    else if StartsWith("shifts", argv[0]) then ShiftSets(argv, 1)
    else Ok(NoAction)
  }

  /** The shift sets written as integers are copied as given. */
  lemma {:induction false} ProcessShifts(fromSet: int, toSet: int)
    requires IntMin <= fromSet <= IntMax && IntMin <= toSet <= IntMax
    ensures Process(["shifts", IntToString(fromSet), IntToString(toSet)]) == Ok(CopyShifts(fromSet, toSet))
  {
    ParseIntToString(fromSet);
    ParseIntToString(toSet);
  }
}
