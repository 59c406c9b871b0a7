/**
 * The Spinit (RS2D) reader's per-dimension parameters: the spectrometer
 * frequency, sweep width and reference caches, the nucleus names and the
 * label names built from them, the Fourier-transform settings taken from
 * the phase modulation, and the check of a processed-dataset directory.
 * The acquisition order it shares with the JCAMP-DX reader is in AcqOrder.
 */
module RS2D {
  import opened Wrappers
  import opened Text
  import opened Seqs

  /** The size of every per-dimension array. */
  const MAXDIM: nat := 4

  /** The directory a processed dataset's number directory must be inside. */
  const PROC_DIR: string := "Proc"

  /**
   * The header.xml parameters read here, one slot per dimension (None
   * where the parameter is missing), and the SR list of reference shifts.
   */
  datatype Header = Header(
    baseFreq: seq<Option<real>>,
    offsetFreq: seq<Option<real>>,
    sw: seq<Option<real>>,
    sr: Option<seq<real>>,
    nucleus: seq<Option<string>>)
  {
    predicate WellFormed()
    {
      |baseFreq| == MAXDIM && |offsetFreq| == MAXDIM && |sw| == MAXDIM && |nucleus| == MAXDIM
    }
  }

  /** The exception of header.get for a missing parameter. */
  function MissingParameter(name: string): Error
  {
    IllegalArgument("missing parameter " + name)
  }

  // ----- the cached getters -----

  /** What a cached getter returns: the cache, else the header's value, else 1.0. */
  function Lookup(cached: Option<real>, fromHeader: Option<Result<real>>): Result<real>
  {
    if cached.Some? then Ok(cached.value)
    else if fromHeader.None? then Ok(1.0)
    else fromHeader.value
  }

  /** The cache after a cached getter: a value read from the header is kept; the 1.0 fallback is not. */
  function Cached(cached: Option<real>, fromHeader: Option<Result<real>>): Option<real>
  {
    if cached.Some? then cached
    else if fromHeader.Some? && fromHeader.value.Ok? then Some(fromHeader.value.value)
    else None
  }

  /**
   * Caching never changes an answer: after any successful get, the next
   * get with the same header returns the same value, and a failed get
   * leaves the cache as it was.
   */
  lemma {:induction false} CacheIsTransparent(cached: Option<real>, fromHeader: Option<Result<real>>)
    ensures Lookup(cached, fromHeader).Ok? ==> Lookup(Cached(cached, fromHeader), fromHeader) == Lookup(cached, fromHeader)
    ensures Lookup(cached, fromHeader).Err? ==> Cached(cached, fromHeader) == cached
    ensures cached.None? && fromHeader.None? ==> Cached(cached, fromHeader) == None && Lookup(cached, fromHeader) == Ok(1.0)
  {
  }

  /** The spectrometer frequency from the header: base frequency plus offset in MHz. */
  function HeaderSF(h: Header, iDim: nat): Option<Result<real>>
    requires h.WellFormed() && iDim < MAXDIM
  {
    if h.baseFreq[iDim].None? then None
    else if h.offsetFreq[iDim].None? then Some(Err(MissingParameter("OFFSET_FREQ")))
    else Some(Ok(h.baseFreq[iDim].value + h.offsetFreq[iDim].value / 1000000.0))
  }

  function HeaderSW(h: Header, iDim: nat): Option<Result<real>>
    requires h.WellFormed() && iDim < MAXDIM
  {
    if h.sw[iDim].None? then None else Some(Ok(h.sw[iDim].value))
  }

  /**
   * The reference from the header, given the frequency getSF returns:
   * (sr + offset) / (sf - offset / 1e6), when SR has an entry for the dimension.
   */
  function HeaderRef(h: Header, iDim: nat, sf: real): Option<Result<real>>
    requires h.WellFormed() && iDim < MAXDIM
  {
    if h.sr.None? || |h.sr.value| <= iDim then None
    else if h.offsetFreq[iDim].None? then Some(Err(MissingParameter("OFFSET_FREQ")))
    else
      var offset := h.offsetFreq[iDim].value;
      var den := sf - offset / 1000000.0;
      if den == 0.0 then Some(Err(ZeroDivision("reference")))
      else Some(Ok((h.sr.value[iDim] + offset) / den))
  }

  /** getTN on a cache slot: the cached name, else the header's, else "". */
  function TNValue(cached: Option<string>, h: Header, iDim: nat): string
    requires h.WellFormed() && iDim < MAXDIM
  {
    if cached.Some? then cached.value
    else if h.nucleus[iDim].Some? then h.nucleus[iDim].value
    else ""
  }

  /** The cache after getTN: only a non-empty name is kept. */
  function TNCached(cached: Option<string>, h: Header, iDim: nat): Option<string>
    requires h.WellFormed() && iDim < MAXDIM
  {
    if cached.Some? then cached
    else if TNValue(cached, h, iDim) != "" then Some(TNValue(cached, h, iDim))
    else None
  }

  /** Caching a nucleus name never changes what getTN returns. */
  lemma {:induction false} TNCacheIsTransparent(cached: Option<string>, h: Header, iDim: nat)
    requires h.WellFormed() && iDim < MAXDIM
    ensures TNValue(TNCached(cached, h, iDim), h, iDim) == TNValue(cached, h, iDim)
    ensures TNCached(cached, h, iDim) != cached ==> cached.None? && TNValue(cached, h, iDim) != ""
  {
  }

  // ----- label names -----

  /** The nucleus names getTN gives for the first n dimensions, from the cache slots. */
  function TNsOf(slots: seq<Option<string>>, h: Header, n: nat): seq<string>
    requires h.WellFormed() && n <= MAXDIM && n <= |slots|
  {
    seq(n, i requires 0 <= i < n => TNValue(slots[i], h, i))
  }

  /** getLabelNames: each name, with `_<dim+1>` added when an earlier label already has it. */
  function Labeled(tns: seq<string>): seq<string>
    decreases |tns|
  {
    if tns == [] then []
    else
      var prev := Labeled(tns[..|tns| - 1]);
      var name := tns[|tns| - 1];
      prev + [if name in prev then name + "_" + NatToString(|tns|) else name]
  }

  predicate NoUnderscore(tns: seq<string>)
  {
    forall i | 0 <= i < |tns| :: '_' !in tns[i]
  }

  /** A name with a suffix determines both the name and the dimension number. */
  lemma {:induction false} SuffixInjective(a: string, i: nat, c: string, k: nat)
    requires '_' !in a && '_' !in c
    requires a + "_" + NatToString(i) == c + "_" + NatToString(k)
    ensures a == c && i == k
  {
    var x := a + "_" + NatToString(i);
    assert x[..|a|] == a && x[|a|] == '_';
    FindCharAt(x, '_', |a|);
    assert x[..|c|] == c && x[|c|] == '_';
    FindCharAt(x, '_', |c|);
    assert x[|a| + 1..] == NatToString(i);
    assert x[|c| + 1..] == NatToString(k);
    DigitsValueOfNatToString(i);
    DigitsValueOfNatToString(k);
  }

  lemma {:induction false} SuffixDistinct(a: string, i: nat, c: string, k: nat)
    requires '_' !in a && '_' !in c && i != k
    ensures a + "_" + NatToString(i) != c + "_" + NatToString(k)
  {
    if a + "_" + NatToString(i) == c + "_" + NatToString(k) {
      SuffixInjective(a, i, c, k);
    }
  }

  lemma {:induction false} UnderscoreIn(a: string, b: string)
    ensures '_' in a + "_" + b
  {
    assert (a + "_" + b)[|a|] == '_';
  }

  /** A prefix of names without '_' has none either. */
  lemma {:induction false} NoUnderscorePrefix(tns: seq<string>, n: nat)
    requires NoUnderscore(tns) && n <= |tns|
    ensures NoUnderscore(tns[..n])
  {
    forall i | 0 <= i < n ensures '_' !in tns[..n][i] {
      assert tns[..n][i] == tns[i];
    }
  }

  /**
   * For nucleus names without '_': a label is the name itself exactly when
   * the name did not occur before, else the name and `_<dim+1>`.
   */
  lemma {:induction false} LabeledLayout(tns: seq<string>)
    requires NoUnderscore(tns)
    ensures |Labeled(tns)| == |tns|
    ensures forall i | 0 <= i < |tns| ::
              Labeled(tns)[i] == if tns[i] in tns[..i] then tns[i] + "_" + NatToString(i + 1) else tns[i]
    decreases |tns|
  {
    if tns != [] {
      var n := |tns| - 1;
      var init := tns[..n];
      NoUnderscorePrefix(tns, n);
      LabeledLayout(init);
      var prev := Labeled(init);
      var name := tns[n];
      forall i | 0 <= i < n
        ensures prev[i] == if tns[i] in tns[..i] then tns[i] + "_" + NatToString(i + 1) else tns[i]
      {
        assert init[..i] == tns[..i] && init[i] == tns[i];
      }
      assert tns[..n] == init;
      NameInLabels(init, prev, name);
    }
  }

  /** For nucleus names without '_', all labels differ. */
  lemma {:induction false} LabeledNames(tns: seq<string>)
    requires NoUnderscore(tns)
    ensures |Labeled(tns)| == |tns|
    ensures PairwiseDistinct(Labeled(tns))
    decreases |tns|
  {
    LabeledLayout(tns);
    if tns != [] {
      var n := |tns| - 1;
      var init := tns[..n];
      NoUnderscorePrefix(tns, n);
      LabeledNames(init);
      LabeledLayout(init);
      var prev := Labeled(init);
      var name := tns[n];
      NameInLabels(init, prev, name);
      var r := Labeled(tns);
      assert r == prev + [if name in prev then name + "_" + NatToString(n + 1) else name];
      LastLabelFresh(init, prev, name);
      forall i, j | 0 <= i < j < |r| ensures r[i] != r[j]
      {
        if j < n {
          assert r[i] == prev[i] && r[j] == prev[j];
        } else {
          assert r[i] == prev[i];
        }
      }
    }
  }

  /** Under no '_', no earlier label is the name with the next dimension's suffix. */
  lemma {:induction false} LastLabelFresh(init: seq<string>, prev: seq<string>, name: string)
    requires NoUnderscore(init) && '_' !in name
    requires |prev| == |init|
    requires forall i | 0 <= i < |init| ::
               prev[i] == if init[i] in init[..i] then init[i] + "_" + NatToString(i + 1) else init[i]
    ensures forall i | 0 <= i < |prev| :: prev[i] != name + "_" + NatToString(|init| + 1)
  {
    forall i | 0 <= i < |prev| ensures prev[i] != name + "_" + NatToString(|init| + 1)
    {
      if init[i] in init[..i] {
        SuffixDistinct(init[i], i + 1, name, |init| + 1);
      } else {
        UnderscoreIn(name, NatToString(|init| + 1));
      }
    }
  }

  /** Under no '_', a name is among the labels exactly when it is among the names. */
  lemma {:induction false} NameInLabels(init: seq<string>, prev: seq<string>, name: string)
    requires NoUnderscore(init) && '_' !in name
    requires |prev| == |init|
    requires forall i | 0 <= i < |init| ::
               prev[i] == if init[i] in init[..i] then init[i] + "_" + NatToString(i + 1) else init[i]
    ensures name in prev <==> name in init
  {
    if name in init {
      var k :| 0 <= k < |init| && init[k] == name;
      var k0 := FirstIndex(init, name, k);
      assert prev[k0] == name;
    }
    if name in prev {
      var k :| 0 <= k < |prev| && prev[k] == name;
    }
  }

  /** The first position of x in s, given one position. */
  lemma {:induction false} FirstIndex(s: seq<string>, x: string, k: nat) returns (k0: nat)
    requires k < |s| && s[k] == x
    ensures k0 < |s| && s[k0] == x && x !in s[..k0]
    decreases k
  {
    if x in s[..k] {
      var k1 :| 0 <= k1 < k && s[..k][k1] == x;
      k0 := FirstIndex(s, x, k1);
    } else {
      k0 := k;
    }
  }

  /** With all names distinct, the labels are the names. */
  lemma {:induction false} LabeledDistinct(tns: seq<string>)
    requires PairwiseDistinct(tns)
    ensures Labeled(tns) == tns
    decreases |tns|
  {
    if tns != [] {
      var init := tns[..|tns| - 1];
      LabeledDistinct(init);
      assert tns[|tns| - 1] !in init;
      assert init + [tns[|tns| - 1]] == tns;
    }
  }

  // ----- phase modulation -----

  /** One entry of the PHASE_MOD list, with the attributes the reader takes from it. */
  datatype PhaseMod = PhaseMod(name: string, isComplex: bool, ftType: string, symbolicCoefs: string, coefs: seq<real>)

  /** The modes that make a dimension's imaginary part negated. */
  predicate NegatesImag(mode: PhaseMod)
  {
    mode.name == "TPPI" || mode.name == "ECHO_ANTIECHO"
  }

  /** The mode of dimension i: from the list, else NONE. */
  function ModeAt(modes: seq<PhaseMod>, none: PhaseMod, i: nat): PhaseMod
  {
    if i < |modes| then modes[i] else none
  }

  /** The FT settings one dimension carries: complexity, FT type, coefficients, negation, size. */
  datatype DimSettings = DimSettings(isComplex: bool, ftType: Option<string>, symbolicCoefs: Option<string>,
                                     coefs: Option<seq<real>>, negateImag: bool, tdSize: int)

  /** What one round of setFtParamsFromPhaseMod does to a dimension's settings. */
  function Applied(d: DimSettings, mode: PhaseMod): (r: DimSettings)
    ensures r.isComplex == mode.isComplex && r.ftType == Some(mode.ftType)
    ensures r.symbolicCoefs == Some(mode.symbolicCoefs) && r.coefs == Some(mode.coefs)
    ensures r.negateImag <==> d.negateImag || NegatesImag(mode)
    ensures mode.isComplex ==> r.tdSize == HalfToZero(d.tdSize)
    ensures !mode.isComplex ==> r.tdSize == d.tdSize
  {
    DimSettings(mode.isComplex, Some(mode.ftType), Some(mode.symbolicCoefs), Some(mode.coefs),
                d.negateImag || NegatesImag(mode), if mode.isComplex then HalfToZero(d.tdSize) else d.tdSize)
  }

  /** Java's `x /= 2` on an int: division truncating toward zero. */
  function HalfToZero(x: int): (r: int)
    ensures x >= 0 ==> 0 <= r <= x && x - 1 <= 2 * r <= x
    ensures x < 0 ==> r == -((-x) / 2)
  {
    if x >= 0 then x / 2 else -((-x) / 2)
  }

  /** A path as its root flag and its name components. */
  datatype Path = Path(absolute: bool, names: seq<string>)

  /** Path.getFileName: the last component; the root has none; the empty path is its own name. */
  function FileName(p: Path): Option<string>
  {
    if |p.names| > 0 then Some(p.names[|p.names| - 1])
    else if p.absolute then None
    else Some("")
  }

  /** Path.getParent: drops the last component; none for a single relative component or the root. */
  function Parent(p: Path): Option<Path>
  {
    if |p.names| >= 2 || (|p.names| == 1 && p.absolute) then Some(Path(p.absolute, p.names[..|p.names| - 1]))
    else None
  }

  function PathString(p: Path): string
  {
    (if p.absolute then "/" else "") + Join(p.names, "/")
  }

  /**
   * isValidDatasetPath: the last component is numeric and its parent's is
   * PROC_DIR. A missing name or parent is a NullPointerException, reached
   * only once the last component is numeric.
   */
  function IsValidDatasetPath(p: Path): Result<bool>
  {
    var fn := FileName(p);
    if fn.None? then Err(NullPointer("getFileName"))
    else if !IsNumeric(fn.value) then Ok(false)
    else
      var parent := Parent(p);
      if parent.None? then Err(NullPointer("getParent"))
      else
        var pfn := FileName(parent.value);
        if pfn.None? then Err(NullPointer("getFileName"))
        else Ok(pfn.value == PROC_DIR)
  }

  /** The check writeOutputFile makes before writing anything. */
  function CheckOutputPath(p: Path): Result<Path>
  {
    match IsValidDatasetPath(p)
    case Err(e) => Err(e)
    case Ok(valid) => if valid then Ok(p) else Err(IllegalArgument("Invalid Spinit Path " + PathString(p)))
  }

  /** A path of two or more components is valid exactly when it ends in Proc/<digits>. */
  lemma {:induction false} ValidDatasetPathIff(p: Path)
    requires |p.names| >= 2
    ensures IsValidDatasetPath(p) == Ok(IsNumeric(p.names[|p.names| - 1]) && p.names[|p.names| - 2] == PROC_DIR)
    ensures CheckOutputPath(p).Ok? <==> IsNumeric(p.names[|p.names| - 1]) && p.names[|p.names| - 2] == PROC_DIR
  {
    var n := |p.names|;
    assert Parent(p) == Some(Path(p.absolute, p.names[..n - 1]));
    assert p.names[..n - 1][n - 2] == p.names[n - 2];
  }

  /** writeOutputFile never gets past its check with a path outside a Proc directory. */
  lemma {:induction false} OutputPathInsideProc(p: Path)
    ensures CheckOutputPath(p).Ok? ==>
              |p.names| >= 2 && IsNumeric(p.names[|p.names| - 1]) && p.names[|p.names| - 2] == PROC_DIR
  {
    if CheckOutputPath(p).Ok? {
      var fn := FileName(p);
      assert fn.Some? && IsNumeric(fn.value);
      assert |p.names| > 0;
      var parent := Parent(p).value;
      assert FileName(parent) == Some(PROC_DIR);
      assert |parent.names| > 0;
    }
  }

  /**
   * The reader's per-dimension state: the caches (None for Java's null),
   * the sizes and the Fourier-transform settings, each an array of MAXDIM
   * slots as in the source.
   */
  class RS2DData {
    const header: Header
    const nDim: nat
    const sf: array<Option<real>>
    const sw: array<Option<real>>
    const ref: array<Option<real>>
    const obsNuc: array<Option<string>>
    const tdsize: array<int>
    const complexDim: array<bool>
    const negateImag: array<bool>
    const fttype: array<Option<string>>
    const f1coefS: array<Option<string>>
    const f1coef: array<Option<seq<real>>>
    var exchangeXY: bool
    var negatePairs: bool

    ghost predicate Valid()
    {
      header.WellFormed() && nDim <= MAXDIM &&
      sf.Length == MAXDIM && sw.Length == MAXDIM && ref.Length == MAXDIM && obsNuc.Length == MAXDIM &&
      tdsize.Length == MAXDIM && complexDim.Length == MAXDIM && negateImag.Length == MAXDIM &&
      fttype.Length == MAXDIM && f1coefS.Length == MAXDIM && f1coef.Length == MAXDIM &&
      sf != sw && sf != ref && sw != ref && obsNuc != fttype && obsNuc != f1coefS && fttype != f1coefS &&
      complexDim != negateImag
    }

    constructor(header: Header, nDim: nat, sizes: seq<int>)
      requires header.WellFormed() && nDim <= MAXDIM && |sizes| == MAXDIM
      ensures Valid() && fresh(sf) && fresh(sw) && fresh(ref) && fresh(obsNuc) && fresh(tdsize)
      ensures fresh(complexDim) && fresh(negateImag) && fresh(fttype) && fresh(f1coefS) && fresh(f1coef)
      ensures this.header == header && this.nDim == nDim && tdsize[..] == sizes
      ensures forall i | 0 <= i < MAXDIM :: sf[i] == None && sw[i] == None && ref[i] == None && obsNuc[i] == None
      ensures forall i | 0 <= i < MAXDIM :: !negateImag[i] && !complexDim[i]
    {
      this.header := header;
      this.nDim := nDim;
      sf := new Option<real>[MAXDIM](_ => None);
      sw := new Option<real>[MAXDIM](_ => None);
      ref := new Option<real>[MAXDIM](_ => None);
      obsNuc := new Option<string>[MAXDIM](_ => None);
      tdsize := new int[MAXDIM](i requires 0 <= i < MAXDIM => sizes[i]);
      complexDim := new bool[MAXDIM](_ => false);
      negateImag := new bool[MAXDIM](_ => false);
      fttype := new Option<string>[MAXDIM](_ => None);
      f1coefS := new Option<string>[MAXDIM](_ => None);
      f1coef := new Option<seq<real>>[MAXDIM](_ => None);
      exchangeXY := false;
      negatePairs := false;
      new;
      assert tdsize[..] == sizes;
    }

    /** getSF: the cached frequency, else the header's, cached; 1.0 uncached when the header has none. */
    method GetSF(iDim: nat) returns (r: Result<real>)
      requires Valid() && iDim < MAXDIM
      modifies sf
      ensures r == Lookup(old(sf[iDim]), HeaderSF(header, iDim))
      ensures sf[..] == old(sf[..])[iDim := Cached(old(sf[iDim]), HeaderSF(header, iDim))]
    {
      if sf[iDim].Some? {
        return Ok(sf[iDim].value);
      }
      var value := header.baseFreq[iDim];
      if value.Some? {
        var offset := header.offsetFreq[iDim];
        if offset.None? {
          return Err(MissingParameter("OFFSET_FREQ"));
        }
        var v := value.value + offset.value / 1000000.0;
        sf[iDim] := Some(v);
        return Ok(v);
      }
      return Ok(1.0);
    }

    method SetSF(iDim: nat, value: real)
      requires Valid() && iDim < MAXDIM
      modifies sf
      ensures sf[..] == old(sf[..])[iDim := Some(value)]
    {
      sf[iDim] := Some(value);
    }

    method ResetSF(iDim: nat)
      requires Valid() && iDim < MAXDIM
      modifies sf
      ensures sf[..] == old(sf[..])[iDim := None]
    {
      sf[iDim] := None;
    }

    /** getSW: the cached sweep width, else the header's, cached; 1.0 uncached when the header has none. */
    method GetSW(iDim: nat) returns (r: Result<real>)
      requires Valid() && iDim < MAXDIM
      modifies sw
      ensures r == Lookup(old(sw[iDim]), HeaderSW(header, iDim))
      ensures sw[..] == old(sw[..])[iDim := Cached(old(sw[iDim]), HeaderSW(header, iDim))]
    {
      if sw[iDim].Some? {
        return Ok(sw[iDim].value);
      }
      var value := header.sw[iDim];
      if value.Some? {
        sw[iDim] := Some(value.value);
        return Ok(value.value);
      }
      return Ok(1.0);
    }

    method SetSW(iDim: nat, value: real)
      requires Valid() && iDim < MAXDIM
      modifies sw
      ensures sw[..] == old(sw[..])[iDim := Some(value)]
    {
      sw[iDim] := Some(value);
    }

    method ResetSW(iDim: nat)
      requires Valid() && iDim < MAXDIM
      modifies sw
      ensures sw[..] == old(sw[..])[iDim := None]
    {
      sw[iDim] := None;
    }

    /**
     * getRef: the cached reference, else one computed from SR, the offset
     * and getSF (which may cache the frequency too), cached; 1.0 uncached
     * when SR has no entry for the dimension.
     */
    method GetRef(iDim: nat) returns (r: Result<real>)
      requires Valid() && iDim < MAXDIM
      modifies ref, sf
      ensures old(ref[iDim]).Some? ==> r == Ok(old(ref[iDim]).value) && ref[..] == old(ref[..]) && sf[..] == old(sf[..])
      ensures old(ref[iDim]).None? && (header.sr.None? || |header.sr.value| <= iDim) ==>
                r == Ok(1.0) && ref[..] == old(ref[..]) && sf[..] == old(sf[..])
      ensures old(ref[iDim]).None? && header.sr.Some? && |header.sr.value| > iDim && header.offsetFreq[iDim].None? ==>
                r == Err(MissingParameter("OFFSET_FREQ")) && ref[..] == old(ref[..]) && sf[..] == old(sf[..])
      ensures old(ref[iDim]).None? && header.sr.Some? && |header.sr.value| > iDim && header.offsetFreq[iDim].Some? ==>
                var freq := Lookup(old(sf[iDim]), HeaderSF(header, iDim));
                freq.Ok? &&
                sf[..] == old(sf[..])[iDim := Cached(old(sf[iDim]), HeaderSF(header, iDim))] &&
                r == Lookup(None, HeaderRef(header, iDim, freq.value)) &&
                ref[..] == old(ref[..])[iDim := Cached(None, HeaderRef(header, iDim, freq.value))]
    {
      if ref[iDim].Some? {
        return Ok(ref[iDim].value);
      }
      if header.sr.None? || |header.sr.value| <= iDim {
        return Ok(1.0);
      }
      var offset := header.offsetFreq[iDim];
      if offset.None? {
        return Err(MissingParameter("OFFSET_FREQ"));
      }
      var freq := GetSF(iDim);
      var sfValue := freq.value;
      var den := sfValue - offset.value / 1000000.0;
      if den == 0.0 {
        return Err(ZeroDivision("reference"));
      }
      var v := (header.sr.value[iDim] + offset.value) / den;
      ref[iDim] := Some(v);
      return Ok(v);
    }

    method SetRef(iDim: nat, value: real)
      requires Valid() && iDim < MAXDIM
      modifies ref
      ensures ref[..] == old(ref[..])[iDim := Some(value)]
    {
      ref[iDim] := Some(value);
    }

    method ResetRef(iDim: nat)
      requires Valid() && iDim < MAXDIM
      modifies ref
      ensures ref[..] == old(ref[..])[iDim := None]
    {
      ref[iDim] := None;
    }

    /** getTN: the cached nucleus name, else the header's or "", cached only when non-empty. */
    method GetTN(iDim: nat) returns (tn: string)
      requires Valid() && iDim < MAXDIM
      modifies obsNuc
      ensures tn == TNValue(old(obsNuc[iDim]), header, iDim)
      ensures obsNuc[..] == old(obsNuc[..])[iDim := TNCached(old(obsNuc[iDim]), header, iDim)]
    {
      if obsNuc[iDim].Some? {
        return obsNuc[iDim].value;
      }
      tn := if header.nucleus[iDim].Some? then header.nucleus[iDim].value else "";
      if tn != "" {
        obsNuc[iDim] := Some(tn);
      }
    }

    /** The nucleus names getTN gives for the first n dimensions. */
    ghost function TNs(n: nat): seq<string>
      requires Valid() && n <= MAXDIM
      reads this, obsNuc
    {
      TNsOf(obsNuc[..], header, n)
    }

    /** getLabelNames: the nucleus names with repeats told apart by `_<dim+1>`. */
    method GetLabelNames() returns (names: seq<string>)
      requires Valid()
      modifies obsNuc
      ensures names == Labeled(old(TNs(nDim)))
      ensures TNs(nDim) == old(TNs(nDim))
    {
      ghost var tns := TNs(nDim);
      names := [];
      for i := 0 to nDim
        invariant TNs(nDim) == tns
        invariant names == Labeled(tns[..i])
      {
        ghost var before := obsNuc[i];
        var name := GetTN(i);
        TNCacheIsTransparent(before, header, i);
        assert name == tns[i];
        if name in names {
          name := name + "_" + NatToString(i + 1);
        }
        assert tns[..i + 1][..i] == tns[..i];
        names := names + [name];
      }
      assert tns[..nDim] == tns;
    }

    /** getNegatePairs: whether dimension k's FT type is "negate". */
    function GetNegatePairs(k: nat): bool
      requires Valid() && k < MAXDIM
      reads fttype
    {
      fttype[k] == Some("negate")
    }

    /** The FT settings of dimension k, read across the parallel arrays. */
    ghost function DimAt(k: nat): DimSettings
      requires Valid() && k < MAXDIM
      reads complexDim, fttype, f1coefS, f1coef, negateImag, tdsize
    {
      DimSettings(complexDim[k], fttype[k], f1coefS[k], f1coef[k], negateImag[k], tdsize[k])
    }

    /** One round of setFtParamsFromPhaseMod's loop: dimension i takes the settings of its mode. */
    method ApplyMode(i: nat, mode: PhaseMod)
      requires Valid() && 1 <= i < MAXDIM
      modifies complexDim, fttype, f1coefS, f1coef, negateImag, tdsize
      ensures DimAt(i) == Applied(old(DimAt(i)), mode)
      ensures forall k | 0 <= k < MAXDIM && k != i :: DimAt(k) == old(DimAt(k))
    {
      complexDim[i] := mode.isComplex;
      fttype[i] := Some(mode.ftType);
      f1coefS[i] := Some(mode.symbolicCoefs);
      f1coef[i] := Some(mode.coefs);
      if mode.name == "TPPI" || mode.name == "ECHO_ANTIECHO" {
        negateImag[i] := true;
      }
      if mode.isComplex {
        tdsize[i] := if tdsize[i] >= 0 then tdsize[i] / 2 else -((-tdsize[i]) / 2);
      }
    }

    /**
     * setFtParamsFromPhaseMod: dimension 0 is complex "ft" with its
     * coefficients, negation and size untouched; each other dimension takes
     * its mode (NONE past the list) as Applied describes.
     */
    method SetFtParamsFromPhaseMod(modes: seq<PhaseMod>, none: PhaseMod)
      requires Valid()
      modifies this`exchangeXY, this`negatePairs, complexDim, fttype, f1coefS, f1coef, negateImag, tdsize
      ensures exchangeXY && !negatePairs
      ensures DimAt(0) == old(DimAt(0)).(isComplex := true, ftType := Some("ft"))
      ensures forall k | 1 <= k < MAXDIM :: DimAt(k) == Applied(old(DimAt(k)), ModeAt(modes, none, k))
      ensures !GetNegatePairs(0)
      ensures forall k | 1 <= k < MAXDIM :: GetNegatePairs(k) <==> ModeAt(modes, none, k).ftType == "negate"
    {
      complexDim[0] := true;
      exchangeXY := true;
      negatePairs := false;
      fttype[0] := Some("ft");
      for i := 1 to MAXDIM
        invariant exchangeXY && !negatePairs
        invariant DimAt(0) == old(DimAt(0)).(isComplex := true, ftType := Some("ft"))
        invariant forall k | 1 <= k < i :: DimAt(k) == Applied(old(DimAt(k)), ModeAt(modes, none, k))
        invariant forall k | i <= k < MAXDIM :: DimAt(k) == old(DimAt(k))
      {
        var mode := if i < |modes| then modes[i] else none;
        ApplyMode(i, mode);
      }
    }
  }
}
