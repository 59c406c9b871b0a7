/**
 * Atom resonances: the peak dimensions assigned to one atom, the names the
 * resonance carries, and the statistics of the chemical shifts measured at
 * its peak dimensions.
 */
module Resonances {
  import opened Wrappers
  import opened Text
  import opened Seqs

  /** A peak dimension, as far as a resonance looks at it. */
  class PeakDim {
    /** The resonance the dimension is assigned to. */
    var resonance: AtomResonance?
    /** The chemical shift, when one has been measured. */
    const shift: Option<real>
    /** The sample-condition label of the peak list the peak belongs to. */
    const condition: Option<string>

    constructor(shift: Option<real>, condition: Option<string>)
      ensures this.shift == shift && this.condition == condition && resonance == null
    {
      this.shift := shift;
      this.condition := condition;
      resonance := null;
    }
  }

  // ---------------------------------------------------------------------------
  // Names
  // ---------------------------------------------------------------------------

  /**
   * The name builder of getName: each name is appended, preceded by a space
   * only when the text built so far is not empty.
   */
  function Built(acc: string, names: seq<string>): string
    decreases |names|
  {
    if names == [] then acc
    else Built((if |acc| > 0 then acc + " " else acc) + names[0], names[1..])
  }

  /** getName: "" for no names, the name itself for one, the built text for several. */
  function NameOf(names: Option<seq<string>>): string
  {
    match names
    case None => ""
    case Some(ns) =>
      if |ns| == 0 then ""
      else if |ns| == 1 then ns[0]
      else Built("", ns)
  }

  /** The names without the empty ones at the front (the builder skips those). */
  function DropLeadingEmpty(names: seq<string>): (r: seq<string>)
    ensures r == [] || r[0] != []
  {
    if names == [] then []
    else if names[0] == [] then DropLeadingEmpty(names[1..])
    else names
  }

  /** Once the text is not empty, the builder joins every further name with one space. */
  lemma {:induction false} BuiltAfterText(acc: string, names: seq<string>)
    requires acc != []
    ensures Built(acc, names) == if names == [] then acc else acc + " " + Join(names, " ")
    decreases |names|
  {
    if names != [] {
      var next := acc + " " + names[0];
      BuiltAfterText(next, names[1..]);
      if |names| > 1 {
        assert Join(names, " ") == names[0] + " " + Join(names[1..], " ");
      }
    }
  }

  /** From empty text, the builder gives the names joined by single spaces, leading empty names dropped. */
  lemma {:induction false} BuiltFromEmpty(names: seq<string>)
    ensures Built("", names) == Join(DropLeadingEmpty(names), " ")
    decreases |names|
  {
    if names != [] {
      assert "" + names[0] == names[0];
      if names[0] == [] {
        BuiltFromEmpty(names[1..]);
      } else {
        BuiltAfterText(names[0], names[1..]);
      }
    }
  }

  /**
   * getName in one formula: the names joined by single spaces, where only the
   * empty names in front vanish.
   */
  lemma {:induction false} NameOfIsJoin(names: Option<seq<string>>)
    ensures NameOf(names) == if names.None? then "" else Join(DropLeadingEmpty(names.value), " ")
  {
    if names.Some? {
      var ns := names.value;
      if |ns| >= 2 {
        BuiltFromEmpty(ns);
      } else if |ns| == 1 && ns[0] == [] {
        assert DropLeadingEmpty(ns) == DropLeadingEmpty(ns[1..]);
      }
    }
  }

  /** Names that are not empty and hold no space are recovered by splitting getName at spaces. */
  lemma {:induction false} NameOfSplits(ns: seq<string>)
    requires |ns| >= 1
    requires forall k | 0 <= k < |ns| :: ns[k] != [] && ' ' !in ns[k]
    ensures Split(NameOf(Some(ns)), ' ') == ns
  {
    NameOfIsJoin(Some(ns));
    SplitJoin(ns, ' ');
  }

  /**
   * isLabelValid: a blank name is always valid; otherwise the active molecule,
   * given as the set of atom names it resolves, must know it. Without an
   * active molecule every name is valid.
   */
  predicate LabelValid(name: string, molecule: Option<set<string>>)
  {
    IsBlank(name) || molecule.None? || name in molecule.value
  }

  predicate AllLabelsValid(names: seq<string>, molecule: Option<set<string>>)
  {
    forall k | 0 <= k < |names| :: LabelValid(names[k], molecule)
  }

  // ---------------------------------------------------------------------------
  // Conditions, counts and shift statistics
  // ---------------------------------------------------------------------------

  /** A peak dimension counts under a condition when the condition is null or empty, or is its list's label. */
  predicate InCondition(p: PeakDim, condition: Option<string>)
  {
    condition.None? || |condition.value| == 0 || p.condition == condition
  }

  /** The number of peak dimensions that count under the condition. */
  function CountIn(ps: seq<PeakDim>, condition: Option<string>): (n: nat)
    ensures n <= |ps|
  {
    if ps == [] then 0
    else CountIn(ps[..|ps| - 1], condition) + (if InCondition(ps[|ps| - 1], condition) then 1 else 0)
  }

  /** The count is the full length exactly when every peak dimension counts. */
  lemma {:induction false} CountInAll(ps: seq<PeakDim>, condition: Option<string>)
    ensures CountIn(ps, condition) == |ps| <==> forall k | 0 <= k < |ps| :: InCondition(ps[k], condition)
  {
    if ps != [] {
      var n := |ps| - 1;
      CountInAll(ps[..n], condition);
      assert forall k | 0 <= k < n :: ps[..n][k] == ps[k];
    }
  }

  /** With no condition, or the empty one, every peak dimension is counted. */
  lemma {:induction false} CountWithoutCondition(ps: seq<PeakDim>, condition: Option<string>)
    requires condition.None? || condition.value == []
    ensures CountIn(ps, condition) == |ps|
  {
    CountInAll(ps, condition);
  }

  /** The chemical shifts that contribute under the condition, in list order. */
  function Shifts(ps: seq<PeakDim>, condition: Option<string>): (xs: seq<real>)
    ensures |xs| <= |ps|
  {
    if ps == [] then []
    else
      var p := ps[|ps| - 1];
      Shifts(ps[..|ps| - 1], condition) + (if InCondition(p, condition) && p.shift.Some? then [p.shift.value] else [])
  }

  /** No shift contributes exactly when no counted peak dimension has one. */
  lemma {:induction false} ShiftsEmpty(ps: seq<PeakDim>, condition: Option<string>)
    ensures |Shifts(ps, condition)| == 0 <==>
      forall k | 0 <= k < |ps| :: !InCondition(ps[k], condition) || ps[k].shift.None?
  {
    if ps != [] {
      var n := |ps| - 1;
      ShiftsEmpty(ps[..n], condition);
      assert forall k | 0 <= k < n :: ps[..n][k] == ps[k];
    }
  }

  function Sum(xs: seq<real>): real
  {
    if xs == [] then 0.0 else Sum(xs[..|xs| - 1]) + xs[|xs| - 1]
  }

  function SumSq(xs: seq<real>): real
  {
    if xs == [] then 0.0 else SumSq(xs[..|xs| - 1]) + xs[|xs| - 1] * xs[|xs| - 1]
  }

  /** getPPMAvg: the mean of the contributing shifts; none when no shift contributes. */
  function PPMAvg(ps: seq<PeakDim>, condition: Option<string>): Option<real>
  {
    var xs := Shifts(ps, condition);
    if |xs| == 0 then None else Some(Sum(xs) / |xs| as real)
  }

  /**
   * The square of getPPMDev: the mean square minus the squared mean, clamped
   * at zero, for two or more shifts; zero for one; none for none.
   */
  function PPMVariance(ps: seq<PeakDim>, condition: Option<string>): Option<real>
  {
    var xs := Shifts(ps, condition);
    if |xs| > 1 then
      var devsq := DevSq(SumSq(xs), Sum(xs), |xs| as real);
      Some(if devsq > 0.0 then devsq else 0.0)
    else if |xs| == 1 then Some(0.0)
    else None
  }

  // Algebra on reals, kept apart from the sequences so the solver sees it alone.

  lemma {:induction false} DivideBounds(s: real, n: real, lo: real, hi: real)
    requires n > 0.0 && n * lo <= s <= n * hi
    ensures lo <= s / n <= hi
  {
    assert (s / n) * n == s;
  }

  lemma {:induction false} SquareNotNegative(e: real)
    ensures e * e >= 0.0
  {
  }

  lemma {:induction false} DivideProduct(n: real, v: real)
    requires n > 0.0
    ensures (n * v) / n == v && (n * v * v) / n == v * v
  {
  }

  lemma {:induction false} AddScaled(n: real, v: real)
    ensures n * v + v == (n + 1.0) * v && n * v * v + v * v == (n + 1.0) * v * v
  {
  }

  /** The sum of squared distances from m written with the sum of squares q, the sum s and the count n. */
  function Expanded(q: real, s: real, n: real, m: real): real
  {
    q - 2.0 * m * s + n * m * m
  }

  lemma {:induction false} ExpandStep(q: real, s: real, n: real, m: real, x: real, d: real,
                                      q': real, s': real, n': real, d': real)
    requires d == Expanded(q, s, n, m)
    requires q' == q + x * x && s' == s + x && n' == n + 1.0 && d' == d + (x - m) * (x - m)
    ensures d' == Expanded(q', s', n', m)
  {
  }

  lemma {:induction false} EqualShiftsAlgebra(q: real, s: real, n: real, v: real)
    requires n > 0.0 && s == n * v && q == n * v * v
    ensures s / n == v && DevSq(q, s, n) == 0.0
  {
    DivideProduct(n, v);
  }

  lemma {:induction false} VarianceAlgebra(q: real, s: real, n: real, d: real)
    requires n > 0.0 && d >= 0.0
    requires d == Expanded(q, s, n, s / n)
    ensures DevSq(q, s, n) >= 0.0
  {
    var m := s / n;
    assert s == n * m;
    assert q - 2.0 * m * s + n * m * m == q - n * m * m;
    assert q / n - m * m == (q - n * m * m) / n;
  }

  /** The mean square minus the squared mean, from the sum of squares q, the sum s and the count n. */
  function DevSq(q: real, s: real, n: real): real
    requires n > 0.0
  {
    q / n - (s / n) * (s / n)
  }

  /** Values between lo and hi have a sum between n * lo and n * hi. */
  lemma {:induction false} SumBounds(xs: seq<real>, lo: real, hi: real)
    requires forall k | 0 <= k < |xs| :: lo <= xs[k] <= hi
    ensures |xs| as real * lo <= Sum(xs) <= |xs| as real * hi
  {
    if xs != [] {
      var n := |xs| - 1;
      var ys, x := xs[..n], xs[n];
      assert forall k | 0 <= k < n :: ys[k] == xs[k];
      SumBounds(ys, lo, hi);
      var s := Sum(ys);
      assert Sum(xs) == s + x && lo <= x <= hi;
      assert |xs| as real == n as real + 1.0;
      SumBoundStep(n as real, s, x, lo, hi);
    }
  }

  /** One more value between lo and hi keeps the sum between the scaled bounds. */
  lemma {:induction false} SumBoundStep(n: real, s: real, x: real, lo: real, hi: real)
    requires n * lo <= s <= n * hi && lo <= x <= hi
    ensures (n + 1.0) * lo <= s + x <= (n + 1.0) * hi
  {
    AddScaled(n, lo);
    AddScaled(n, hi);
  }

  /** The average lies between any lower and upper bound of the contributing shifts. */
  lemma {:induction false} PPMAvgBetween(ps: seq<PeakDim>, condition: Option<string>, lo: real, hi: real)
    requires forall k | 0 <= k < |Shifts(ps, condition)| :: lo <= Shifts(ps, condition)[k] <= hi
    ensures PPMAvg(ps, condition).Some? ==> lo <= PPMAvg(ps, condition).value <= hi
  {
    var xs := Shifts(ps, condition);
    if |xs| > 0 {
      SumBounds(xs, lo, hi);
      DivideBounds(Sum(xs), |xs| as real, lo, hi);
    }
  }

  /** getPPMAvg gives none exactly when no counted peak dimension has a shift. */
  lemma {:induction false} PPMAvgNone(ps: seq<PeakDim>, condition: Option<string>)
    ensures PPMAvg(ps, condition).None? <==>
      forall k | 0 <= k < |ps| :: !InCondition(ps[k], condition) || ps[k].shift.None?
  {
    ShiftsEmpty(ps, condition);
  }

  /** The sum of squared distances from m, a quantity that is never negative. */
  function SquaredDeviation(xs: seq<real>, m: real): (d: real)
  {
    if xs == [] then 0.0
    else
      var e := xs[|xs| - 1] - m;
      SquaredDeviation(xs[..|xs| - 1], m) + e * e
  }

  lemma {:induction false} SquaredDeviationNotNegative(xs: seq<real>, m: real)
    ensures SquaredDeviation(xs, m) >= 0.0
  {
    if xs != [] {
      SquaredDeviationNotNegative(xs[..|xs| - 1], m);
      SquareNotNegative(xs[|xs| - 1] - m);
    }
  }

  /** One more value adds its square, itself and its squared distance to the three sums. */
  lemma {:induction false} DeviationStep(xs: seq<real>, m: real)
    requires xs != []
    ensures var ys, x := xs[..|xs| - 1], xs[|xs| - 1];
      SumSq(xs) == SumSq(ys) + x * x && Sum(xs) == Sum(ys) + x
      && SquaredDeviation(xs, m) == SquaredDeviation(ys, m) + (x - m) * (x - m)
  {
  }

  /** The squared distances from m expand into the two running sums of the loop. */
  lemma {:induction false} SquaredDeviationExpands(xs: seq<real>, m: real)
    ensures SquaredDeviation(xs, m) == Expanded(SumSq(xs), Sum(xs), |xs| as real, m)
  {
    if xs != [] {
      var n := |xs| - 1;
      var ys, x := xs[..n], xs[n];
      SquaredDeviationExpands(ys, m);
      DeviationStep(xs, m);
      ExpandStep(SumSq(ys), Sum(ys), n as real, m, x, SquaredDeviation(ys, m),
                 SumSq(xs), Sum(xs), |xs| as real, SquaredDeviation(xs, m));
    }
  }

  /**
   * In exact arithmetic the variance formula of getPPMDev is never negative,
   * so its clamp only matters for rounding.
   */
  lemma {:induction false} VarianceNotNegative(xs: seq<real>)
    requires |xs| > 0
    ensures DevSq(SumSq(xs), Sum(xs), |xs| as real) >= 0.0
  {
    var n := |xs| as real;
    var q, s := SumSq(xs), Sum(xs);
    var m := s / n;
    var d := SquaredDeviation(xs, m);
    assert d >= 0.0 && d == Expanded(q, s, n, m) by {
      SquaredDeviationExpands(xs, m);
      SquaredDeviationNotNegative(xs, m);
    }
    VarianceAlgebra(q, s, n, d);
  }

  /** Shifts that all equal v average to v and deviate by zero. */
  lemma {:induction false} EqualShifts(xs: seq<real>, v: real)
    requires forall k | 0 <= k < |xs| :: xs[k] == v
    ensures Sum(xs) == |xs| as real * v && SumSq(xs) == |xs| as real * v * v
  {
    if xs != [] {
      var n := |xs| - 1;
      var ys := xs[..n];
      assert forall k | 0 <= k < n :: ys[k] == xs[k];
      EqualShifts(ys, v);
      var s, q := Sum(ys), SumSq(ys);
      assert Sum(xs) == s + v && SumSq(xs) == q + v * v;
      assert s == n as real * v && q == n as real * v * v;
      AddScaled(n as real, v);
    }
  }

  /** Values that all equal v have mean v and a zero mean square deviation. */
  lemma {:induction false} EqualMean(xs: seq<real>, v: real)
    requires |xs| > 0 && forall k | 0 <= k < |xs| :: xs[k] == v
    ensures Sum(xs) / |xs| as real == v && DevSq(SumSq(xs), Sum(xs), |xs| as real) == 0.0
  {
    EqualShifts(xs, v);
    EqualShiftsAlgebra(SumSq(xs), Sum(xs), |xs| as real, v);
  }

  /** When every contributing shift is v, the average is v and the deviation zero. */
  lemma {:induction false} PPMOfEqualShifts(ps: seq<PeakDim>, condition: Option<string>, v: real)
    requires |Shifts(ps, condition)| > 0
    requires forall k | 0 <= k < |Shifts(ps, condition)| :: Shifts(ps, condition)[k] == v
    ensures PPMAvg(ps, condition) == Some(v)
    ensures PPMVariance(ps, condition) == Some(0.0)
  {
    EqualMean(Shifts(ps, condition), v);
  }

  /** The variance exactly, without clamp, for two or more shifts. */
  lemma {:induction false} PPMVarianceExact(ps: seq<PeakDim>, condition: Option<string>)
    requires |Shifts(ps, condition)| > 1
    ensures var xs := Shifts(ps, condition);
      PPMVariance(ps, condition) == Some(DevSq(SumSq(xs), Sum(xs), |xs| as real))
  {
    VarianceNotNegative(Shifts(ps, condition));
  }

  // ---------------------------------------------------------------------------
  // The NMR-STAR resonance row
  // ---------------------------------------------------------------------------

  /** The fields of a _Resonance row: id, quoted name, resonance set, spin system, linker list. */
  function StarFields(id: int, name: string, inResonanceSet: bool, ssID: Option<string>): seq<string>
  {
    [IntToString(id), "\"" + name + "\"", if inResonanceSet then "" else ".",
     if ssID.Some? then ssID.value else ".", "1"]
  }

  /** Five fields joined by single spaces. */
  lemma {:induction false} JoinFive(a: string, b: string, c: string, d: string, e: string)
    ensures Join([a, b, c, d, e], " ") == a + " " + b + " " + c + " " + d + " " + e
  {
    var sp := " ";
    assert [d, e][1..] == [e];
    var j4 := d + sp + e;
    assert Join([d, e], sp) == j4;
    assert [c, d, e][1..] == [d, e];
    var j3 := c + sp + j4;
    assert Join([c, d, e], sp) == j3;
    assert j3 == c + sp + d + sp + e;
    assert [b, c, d, e][1..] == [c, d, e];
    var j2 := b + sp + j3;
    assert Join([b, c, d, e], sp) == j2;
    assert j2 == b + sp + c + sp + d + sp + e;
    assert [a, b, c, d, e][1..] == [b, c, d, e];
  }

  /** toSTARResonanceString, appended piece by piece as the source's builder does. */
  function StarResonanceLine(id: int, name: string, inResonanceSet: bool, ssID: Option<string>): (r: string)
    ensures r == Join(StarFields(id, name, inResonanceSet, ssID), " ")
  {
    var idText := IntToString(id);
    var quoted := "\"" + name + "\"";
    var setField := if inResonanceSet then "" else ".";
    var ssField := if ssID.Some? then ssID.value else ".";
    JoinFive(idText, quoted, setField, ssField, "1");
    idText + " " + quoted + " " + setField + " " + ssField + " " + "1"
  }

  /** With a name and a spin-system id free of spaces, splitting the row at spaces gives its five fields back. */
  lemma {:induction false} StarLineSplits(id: int, name: string, inResonanceSet: bool, ssID: Option<string>)
    requires ' ' !in name && (ssID.Some? ==> ' ' !in ssID.value)
    ensures Split(StarResonanceLine(id, name, inResonanceSet, ssID), ' ') == StarFields(id, name, inResonanceSet, ssID)
  {
    var f := StarFields(id, name, inResonanceSet, ssID);
    assert ' ' !in IntToString(id) by {
      var d := NatToString(if id < 0 then -id else id);
      assert forall k | 0 <= k < |d| :: IsDigit(d[k]);
    }
    SplitJoin(f, ' ');
  }

  // ---------------------------------------------------------------------------
  // The resonance
  // ---------------------------------------------------------------------------

  class AtomResonance {
    var id: int
    var names: Option<seq<string>>
    var labelValid: bool
    var atomName: string
    /** The full name of the assigned atom, when an atom is assigned. */
    var atom: Option<string>
    /** Whether the resonance belongs to a resonance set. */
    var inResonanceSet: bool
    /** The spin-system id, as text. */
    var ssID: Option<string>
    var peakDims: seq<PeakDim>

    constructor(id: int)
      ensures this.id == id && names.None? && labelValid && atomName == [] && atom.None?
      ensures !inResonanceSet && ssID.None? && peakDims == []
    {
      this.id := id;
      names := None;
      labelValid := true;
      atomName := [];
      atom := None;
      inResonanceSet := false;
      ssID := None;
      peakDims := [];
    }

    function GetName(): string
      reads this
    {
      NameOf(names)
    }

    /** The assigned atom's full name, or the stored atom name when no atom is assigned. */
    function GetAtomName(): string
      reads this
    {
      if atom.Some? then atom.value else atomName
    }

    function ToSTARResonanceString(): (r: string)
      reads this
      ensures r == Join(StarFields(id, GetName(), inResonanceSet, ssID), " ")
    {
      StarResonanceLine(id, GetName(), inResonanceSet, ssID)
    }

    /**
     * setName(List): the names become a copy of the new ones (none gives an
     * empty list), and the label is valid when every new name is.
     */
    method SetName(newNames: Option<seq<string>>, molecule: Option<set<string>>)
      modifies this`names, this`labelValid
      ensures names == Some(if newNames.Some? then newNames.value else [])
      ensures labelValid <==> newNames.None? || AllLabelsValid(newNames.value, molecule)
    {
      names := Some(if newNames.Some? then newNames.value else []);
      var valid := true;
      if newNames.Some? {
        var ns := newNames.value;
        var i := 0;
        while i < |ns|
          invariant 0 <= i <= |ns|
          invariant forall k | 0 <= k < i :: LabelValid(ns[k], molecule)
        {
          if !LabelValid(ns[i], molecule) {
            valid := false;
            break;
          }
          i := i + 1;
        }
      }
      labelValid := valid;
    }

    /** setName(String): a single name, which getName then returns. */
    method SetNameString(name: string, molecule: Option<set<string>>)
      modifies this`names, this`labelValid
      ensures names == Some([name]) && GetName() == name
      ensures labelValid == LabelValid(name, molecule)
    {
      SetName(Some([name]), molecule);
    }

    /**
     * copy: a new resonance with the same id, atom and peak dimensions. Its
     * names are set twice, the second time to the single joined name, so the
     * copy holds one name equal to the original's getName.
     */
    method Copy(molecule: Option<set<string>>) returns (c: AtomResonance)
      ensures fresh(c)
      ensures c.id == id && c.peakDims == peakDims && c.atom == atom && c.atomName == GetAtomName()
      ensures c.names == (if names.None? then None else Some([GetName()]))
      ensures c.GetName() == GetName()
      ensures c.labelValid == (names.None? || LabelValid(GetName(), molecule))
      ensures !c.inResonanceSet && c.ssID.None?
    {
      c := new AtomResonance(id);
      c.peakDims := c.peakDims + peakDims;
      if names.Some? {
        c.SetName(names, molecule);
        c.SetNameString(GetName(), molecule);
      }
      c.atomName := GetAtomName();
      c.atom := atom;
    }

    /**
     * merge: unless b is this resonance, every peak dimension of b is pointed
     * at this resonance and appended when not already present, and b is left
     * with none.
     */
    method Merge(b: AtomResonance)
      modifies this`peakDims, b`peakDims, b.peakDims
      ensures b == this ==> peakDims == old(peakDims)
      ensures b == this ==> forall k | 0 <= k < |peakDims| :: peakDims[k].resonance == old(peakDims[k].resonance)
      ensures b != this ==> peakDims == AppendAbsent(old(peakDims), old(b.peakDims)) && b.peakDims == []
      ensures b != this ==> forall k | 0 <= k < |old(b.peakDims)| :: old(b.peakDims)[k].resonance == this
      ensures b != this ==> forall p :: p in peakDims <==> p in old(peakDims) || p in old(b.peakDims)
      ensures Distinct(old(peakDims)) ==> Distinct(peakDims)
    {
      if b != this {
        var bs := b.peakDims;
        var ps := peakDims;
        ghost var ps0 := ps;
        for i := 0 to |bs|
          invariant ps == AppendAbsent(ps0, bs[..i])
          invariant forall k | 0 <= k < i :: bs[k].resonance == this
        {
          bs[i].resonance := this;
          assert bs[..i + 1][..i] == bs[..i];
          if bs[i] !in ps {
            ps := ps + [bs[i]];
          }
        }
        assert bs[..|bs|] == bs;
        AppendAbsentElements(ps0, bs);
        if Distinct(ps0) {
          AppendAbsentDistinct(ps0, bs);
        }
        peakDims := ps;
        b.peakDims := [];
      }
    }

    /** add: points the peak dimension here and appends it unless it is already present. */
    method Add(p: PeakDim)
      modifies this`peakDims, p`resonance
      ensures p.resonance == this && p in peakDims
      ensures peakDims == AppendAbsent(old(peakDims), [p])
      ensures p in old(peakDims) ==> peakDims == old(peakDims)
      ensures Distinct(old(peakDims)) ==> Distinct(peakDims)
    {
      p.resonance := this;
      assert [p][..0] == [];
      if p !in peakDims {
        peakDims := peakDims + [p];
        assert peakDims[..|peakDims| - 1] == old(peakDims);
      }
    }

    /** remove: drops the first occurrence of the peak dimension. */
    method Remove(p: PeakDim)
      modifies this`peakDims
      ensures peakDims == RemoveFirst(old(peakDims), p)
      ensures Distinct(old(peakDims)) ==> p !in peakDims && Distinct(peakDims)
    {
      ghost var ps := peakDims;
      peakDims := RemoveFirst(peakDims, p);
      if Distinct(ps) {
        DistinctIsPairwise(ps);
        RemoveFirstDistinct(ps, p);
        DistinctIsPairwise(peakDims);
      }
    }

    /** getPeakCount: how many peak dimensions count under the condition. */
    method GetPeakCount(condition: Option<string>) returns (n: int)
      ensures n == CountIn(peakDims, condition)
    {
      var ps := peakDims;
      n := 0;
      for i := 0 to |ps|
        invariant n == CountIn(ps[..i], condition)
      {
        assert ps[..i + 1][..i] == ps[..i];
        if InCondition(ps[i], condition) {
          n := n + 1;
        }
      }
      assert ps[..|ps|] == ps;
    }

    /** getPPMAvg: the running sum and count of the contributing shifts, then their mean. */
    method GetPPMAvg(condition: Option<string>) returns (r: Option<real>)
      ensures r == PPMAvg(peakDims, condition)
    {
      var ps := peakDims;
      var sum := 0.0;
      var n := 0;
      ghost var xs: seq<real> := [];
      for i := 0 to |ps|
        invariant xs == Shifts(ps[..i], condition)
        invariant sum == Sum(xs) && n == |xs|
      {
        ShiftsStep(ps, condition, i);
        if InCondition(ps[i], condition) && ps[i].shift.Some? {
          var x := ps[i].shift.value;
          SumsStep(xs, x);
          sum := sum + x;
          n := n + 1;
          xs := xs + [x];
        }
      }
      assert ps[..|ps|] == ps;
      r := if n > 0 then Some(sum / n as real) else None;
    }

    /**
     * getPPMDev, up to its final square root: the running sum, sum of squares
     * and count of the contributing shifts, then the clamped variance.
     */
    method GetPPMDev(condition: Option<string>) returns (r: Option<real>)
      ensures r == PPMVariance(peakDims, condition)
    {
      var ps := peakDims;
      var sum := 0.0;
      var sumsq := 0.0;
      var n := 0;
      ghost var xs: seq<real> := [];
      for i := 0 to |ps|
        invariant xs == Shifts(ps[..i], condition)
        invariant sum == Sum(xs) && sumsq == SumSq(xs) && n == |xs|
      {
        ShiftsStep(ps, condition, i);
        if InCondition(ps[i], condition) && ps[i].shift.Some? {
          var x := ps[i].shift.value;
          SumsStep(xs, x);
          sum := sum + x;
          sumsq := sumsq + x * x;
          n := n + 1;
          xs := xs + [x];
        }
      }
      assert ps[..|ps|] == ps;
      r := None;
      if n > 1 {
        var mean := sum / n as real;
        var devsq := sumsq / n as real - mean * mean;
        assert devsq == DevSq(sumsq, sum, n as real);
        if devsq > 0.0 {
          r := Some(devsq);
        } else {
          r := Some(0.0);
        }
      } else if n == 1 {
        r := Some(0.0);
      }
    }
  }

  /** One loop step over the shifts: position i adds its shift exactly when it counts and has one. */
  lemma {:induction false} ShiftsStep(ps: seq<PeakDim>, condition: Option<string>, i: nat)
    requires i < |ps|
    ensures !(InCondition(ps[i], condition) && ps[i].shift.Some?) ==>
      Shifts(ps[..i + 1], condition) == Shifts(ps[..i], condition)
    ensures InCondition(ps[i], condition) && ps[i].shift.Some? ==>
      Shifts(ps[..i + 1], condition) == Shifts(ps[..i], condition) + [ps[i].shift.value]
  {
    assert ps[..i + 1][..i] == ps[..i];
    assert Shifts(ps[..i], condition) + [] == Shifts(ps[..i], condition);
  }

  /** The running sums after one more shift. */
  lemma {:induction false} SumsStep(xs: seq<real>, x: real)
    ensures Sum(xs + [x]) == Sum(xs) + x && SumSq(xs + [x]) == SumSq(xs) + x * x
  {
    assert (xs + [x])[..|xs|] == xs;
  }
}
