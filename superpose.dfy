/**
 * The helpers of the ensemble-superposition script: the median, the
 * residue-selection mini-language ("A: 2-5, 10; B: 3"), the argument overlap
 * checks, the choice of the representative model and the scan that turns
 * per-residue deviations into "core" residue ranges.
 *
 * The rigid-body superposition and the structure I/O are outside the model:
 * their results enter as a list of pair results (iFix, iMove, rms) and as the
 * per-atom deviation values (B-factors) of each residue.
 */
module Superpose {
  import opened Wrappers
  import opened Text

  // ---------------------------------------------------------------------------
  // median
  // ---------------------------------------------------------------------------

  predicate Sorted(s: seq<real>) { forall i, j | 0 <= i < j < |s| :: s[i] <= s[j] }

  /** Places x before the first value it does not exceed. */
  function Insert(x: real, s: seq<real>): (r: seq<real>)
    ensures |r| == |s| + 1
  {
    if s == [] then [x]
    else if x <= s[0] then [x] + s
    else [s[0]] + Insert(x, s[1..])
  }

  /** Inserting into sorted values keeps them sorted. */
  lemma {:induction false} InsertSorted(x: real, s: seq<real>)
    requires Sorted(s)
    ensures Sorted(Insert(x, s))
    ensures Insert(x, s)[0] == x || Insert(x, s)[0] == s[0]
  {
    if s != [] && x > s[0] {
      InsertSorted(x, s[1..]);
      var rest := Insert(x, s[1..]);
      assert s[0] <= rest[0];
      assert Insert(x, s) == [s[0]] + rest;
    }
  }

  /** Inserting adds exactly the one value. */
  lemma {:induction false} InsertPermutes(x: real, s: seq<real>)
    ensures multiset(Insert(x, s)) == multiset(s) + multiset{x}
  {
    if s != [] && x > s[0] {
      InsertPermutes(x, s[1..]);
      assert s == [s[0]] + s[1..];
      assert Insert(x, s) == [s[0]] + Insert(x, s[1..]);
    }
  }

  /** The order list.sort() leaves the values in. */
  function SortValues(s: seq<real>): (r: seq<real>)
    ensures |r| == |s| && Sorted(r) && multiset(r) == multiset(s)
  {
    if s == [] then []
    else
      assert s == [s[0]] + s[1..];
      InsertSorted(s[0], SortValues(s[1..]));
      InsertPermutes(s[0], SortValues(s[1..]));
      Insert(s[0], SortValues(s[1..]))
  }

  /** The first element of a sorted sequence is its least value. */
  lemma {:induction false} SortedHeadIsLeast(a: seq<real>, x: real)
    requires Sorted(a) && x in multiset(a)
    ensures a[0] <= x
  {
    var k :| 0 <= k < |a| && a[k] == x;
  }

  /** Two sorted orderings of the same values are the same sequence. */
  lemma {:induction false} SortedUnique(a: seq<real>, b: seq<real>)
    requires Sorted(a) && Sorted(b) && multiset(a) == multiset(b)
    ensures a == b
    decreases |a|
  {
    assert |a| == |b| by {
      assert |a| == |multiset(a)| && |b| == |multiset(b)|;
    }
    if |a| > 0 {
      var a', b' := a[1..], b[1..];
      assert a[0] == b[0] by {
        assert a[0] in multiset(b) && b[0] in multiset(a);
        SortedHeadIsLeast(a, b[0]);
        SortedHeadIsLeast(b, a[0]);
      }
      assert multiset(a') == multiset(b') by {
        TailMultiset(a);
        TailMultiset(b);
      }
      SortedTail(a);
      SortedTail(b);
      SortedUnique(a', b');
      assert a == [a[0]] + a';
      assert b == [b[0]] + b';
    }
  }

  lemma {:induction false} SortedTail(a: seq<real>)
    requires |a| > 0 && Sorted(a)
    ensures Sorted(a[1..])
  {
    forall i, j | 0 <= i < j < |a| - 1 ensures a[1..][i] <= a[1..][j] {
      assert a[1..][i] == a[i + 1] && a[1..][j] == a[j + 1];
    }
  }

  lemma {:induction false} TailMultiset(a: seq<real>)
    requires |a| > 0
    ensures multiset(a[1..]) == multiset(a) - multiset{a[0]}
  {
    assert a == [a[0]] + a[1..];
  }

  /** The median of already sorted values, as the script computes it. */
  function MedianOfSorted(v: seq<real>): Option<real>
  {
    if |v| == 0 then None
    else if |v| == 1 then Some(v[0])
    else Some((v[|v| / 2] + v[(|v| - 1) / 2]) / 2.0)
  }

  /**
   * median(values): sorts the caller's list in place, then returns None for
   * an empty list, the only element for one, and otherwise the mean of the
   * elements at n/2 and (n-1)/2 (the same element when n is odd).
   */
  method Median(values: array<real>) returns (r: Option<real>)
    modifies values
    ensures Sorted(values[..]) && multiset(values[..]) == multiset(old(values[..]))
    ensures r == MedianOfSorted(values[..])
  {
    SortInPlace(values);
    var n := values.Length;
    if n == 0 {
      r := None;
    } else if n == 1 {
      r := Some(values[0]);
    } else {
      var v1 := values[n / 2];
      var v2 := values[(n - 1) / 2];
      r := Some((v1 + v2) / 2.0);
    }
  }

  /** list.sort(): the array ends up holding its values in ascending order. */
  method SortInPlace(values: array<real>)
    modifies values
    ensures Sorted(values[..]) && multiset(values[..]) == multiset(old(values[..]))
  {
    var sorted := SortValues(values[..]);
    forall k | 0 <= k < values.Length {
      values[k] := sorted[k];
    }
    assert values[..] == sorted;
  }

  lemma {:induction false} MeanBetween(x: real, y: real)
    requires y <= x
    ensures y <= (x + y) / 2.0 <= x
  {
  }

  /**
   * The median splits the sorted values: every value up to position (n-1)/2
   * is at most the median and every value from n/2 on is at least it.
   */
  lemma {:induction false} MedianSplitsValues(v: seq<real>)
    requires |v| > 0 && Sorted(v)
    ensures var m := MedianOfSorted(v).value;
      (forall i | 0 <= i <= (|v| - 1) / 2 :: v[i] <= m) && (forall i | |v| / 2 <= i < |v| :: m <= v[i])
  {
    var n := |v|;
    var lo, hi := (n - 1) / 2, n / 2;
    var m := MedianOfSorted(v).value;
    assert v[lo] <= m <= v[hi] by {
      if n > 1 {
        assert v[lo] <= v[hi];
        MeanBetween(v[hi], v[lo]);
      }
    }
    forall i | 0 <= i <= lo ensures v[i] <= m {
      assert v[i] <= v[lo];
    }
    forall i | hi <= i < n ensures m <= v[i] {
      assert v[hi] <= v[i];
    }
  }

  /** The median does not depend on the order in which the values arrive. */
  lemma {:induction false} MedianOrderIndependent(a: seq<real>, b: seq<real>)
    requires Sorted(a) && Sorted(b) && multiset(a) == multiset(b)
    ensures MedianOfSorted(a) == MedianOfSorted(b)
  {
    SortedUnique(a, b);
  }

  /** For an odd count the median is the middle value. */
  lemma {:induction false} MedianOdd(v: seq<real>)
    requires |v| % 2 == 1
    ensures MedianOfSorted(v) == Some(v[|v| / 2])
  {
  }

  // ---------------------------------------------------------------------------
  // residue lists
  // ---------------------------------------------------------------------------

  /** `chain.item`, the residue name the selection language produces. */
  function ResName(chain: string, item: string): string { chain + "." + item }

  /** range(first, last + 1), written as residue names. */
  function RangeNames(chain: string, first: int, last: int): (r: seq<string>)
    ensures |r| == if last < first then 0 else last - first + 1
    ensures forall i | 0 <= i < |r| :: r[i] == ResName(chain, IntToString(first + i))
    decreases last - first
  {
    if last < first then []
    else
      var rest := RangeNames(chain, first + 1, last);
      var r := [ResName(chain, IntToString(first))] + rest;
      forall i | 1 <= i < |r|
        ensures r[i] == ResName(chain, IntToString(first + i))
      {
        assert r[i] == rest[i - 1] && (first + 1) + (i - 1) == first + i;
      }
      r
  }

  /** The names a range token `a-b` stands for: int() of the first two pieces around `-`. */
  function RangeToken(chain: string, val: string): Result<seq<string>>
    requires '-' in val
  {
    var pieces := Split(val, '-');
    match (PyInt(pieces[0]), PyInt(pieces[1]))
    case (Some(a), Some(b)) => Ok(RangeNames(chain, a, b))
    case _ => Err(ValueError("invalid literal for int()"))
  }

  /** The comma list with ranges: each token a range or a single stripped value, in input order. */
  function MixedTokens(chain: string, tokens: seq<string>): Result<seq<string>>
  {
    if tokens == [] then Ok([])
    else
      var head := if '-' in tokens[0] then RangeToken(chain, tokens[0]) else Ok([ResName(chain, Strip(tokens[0]))]);
      match head
      case Err(e) => Err(e)
      case Ok(names) =>
        match MixedTokens(chain, tokens[1..])
        case Err(e) => Err(e)
        case Ok(more) => Ok(names + more)
  }

  /** The plain comma list: stripped, chain-prefixed tokens; tokens that are empty before stripping are dropped. */
  function CommaTokens(chain: string, tokens: seq<string>): seq<string>
  {
    if tokens == [] then []
    else if tokens[0] == "" then CommaTokens(chain, tokens[1..])
    else [ResName(chain, Strip(tokens[0]))] + CommaTokens(chain, tokens[1..])
  }

  /** makeResList(resArg, chain). A bare number leaves resList unbound. */
  function MakeResList(resArg: string, chain: string): Result<seq<string>>
  {
    if resArg == "" then Ok([])
    else if resArg == "*" then Ok([resArg])
    else if '-' in resArg && ',' in resArg then MixedTokens(chain, Split(resArg, ','))
    else if '-' in resArg then RangeToken(chain, resArg)
    else if ',' in resArg then Ok(CommaTokens(chain, Split(resArg, ',')))
    else Err(UnboundLocal("resList"))
  }

  /** `a-b` names every residue from a to b inclusive, in order (RangeNames states the names). */
  lemma {:induction false} MakeResListRange(chain: string, a: nat, b: nat)
    ensures MakeResList(NatToString(a) + "-" + NatToString(b), chain) == Ok(RangeNames(chain, a, b))
  {
    var sa, sb := NatToString(a), NatToString(b);
    var arg := sa + "-" + sb;
    RangeArgShape(sa, sb);
    assert PyInt(sa) == Some(a as int) && PyInt(sb) == Some(b as int) by {
      PyIntToString(a);
      PyIntToString(b);
    }
    assert MakeResList(arg, chain) == RangeToken(chain, arg);
  }

  /** Two digit strings joined by `-` are a range token that splits back into them. */
  lemma {:induction false} RangeArgShape(sa: string, sb: string)
    requires |sa| > 0 && AllDigits(sa) && AllDigits(sb)
    ensures var arg := sa + "-" + sb;
      arg != "" && arg != "*" && '-' in arg && ',' !in arg && Split(arg, '-') == [sa, sb]
  {
    var arg := sa + "-" + sb;
    assert Join([sa, sb], "-") == arg;
    assert '-' !in sa && '-' !in sb by {
      assert forall i | 0 <= i < |sa| :: IsDigit(sa[i]);
      assert forall i | 0 <= i < |sb| :: IsDigit(sb[i]);
    }
    assert ',' !in arg by {
      assert forall i | 0 <= i < |arg| :: arg[i] == '-' || IsDigit(arg[i]);
    }
    assert arg[|sa|] == '-';
    assert arg != "*" by { assert arg[0] == sa[0] && IsDigit(sa[0]); }
    SplitJoin([sa, sb], '-');
  }

  /** A comma list of non-empty single values yields exactly those values, stripped and prefixed, in order. */
  lemma {:induction false} MakeResListCommaList(chain: string, tokens: seq<string>)
    requires |tokens| >= 2
    requires forall i | 0 <= i < |tokens| :: tokens[i] != "" && '-' !in tokens[i] && ',' !in tokens[i]
    ensures MakeResList(Join(tokens, ","), chain) == Ok(Prefixed(chain, tokens))
  {
    var arg := Join(tokens, ",");
    SplitJoin(tokens, ',');
    JoinHasNo(tokens, ",", '-');
    assert arg != "" && arg != "*" by {
      assert tokens[0] + "," + Join(tokens[1..], ",") == arg;
    }
    assert ',' in arg by {
      assert arg[|tokens[0]|] == ',' by { assert arg == tokens[0] + "," + Join(tokens[1..], ","); }
    }
    CommaTokensAllPresent(chain, tokens);
  }

  /** Every token, stripped and prefixed with its chain. */
  function Prefixed(chain: string, tokens: seq<string>): (r: seq<string>)
    ensures |r| == |tokens| && forall i | 0 <= i < |tokens| :: r[i] == ResName(chain, Strip(tokens[i]))
  {
    seq(|tokens|, i requires 0 <= i < |tokens| => ResName(chain, Strip(tokens[i])))
  }

  lemma {:induction false} CommaTokensAllPresent(chain: string, tokens: seq<string>)
    requires forall i | 0 <= i < |tokens| :: tokens[i] != ""
    ensures CommaTokens(chain, tokens) == Prefixed(chain, tokens)
  {
    if tokens != [] {
      CommaTokensAllPresent(chain, tokens[1..]);
      assert Prefixed(chain, tokens) == [ResName(chain, Strip(tokens[0]))] + Prefixed(chain, tokens[1..]);
    }
  }

  lemma {:induction false} JoinHasNo(parts: seq<string>, sep: string, c: char)
    requires c !in sep
    requires forall i | 0 <= i < |parts| :: c !in parts[i]
    ensures c !in Join(parts, sep)
  {
    if |parts| > 1 {
      JoinHasNo(parts[1..], sep, c);
    }
  }

  /** A bare residue number (no `,` and no `-`) is an error: the script never binds its result. */
  lemma {:induction false} MakeResListBareNumber(chain: string, n: nat)
    ensures MakeResList(NatToString(n), chain).Err?
  {
    assert NatToString(n) != "*" by { assert IsDigit(NatToString(n)[0]); }
    assert '-' !in NatToString(n) && ',' !in NatToString(n);
  }

  /** One `chain: spec` part of a multi-chain selection; a part without `:` is an IndexError. */
  function ChainPart(part: string): Result<seq<string>>
  {
    var pieces := Split(part, ':');
    if |pieces| < 2 then Err(IndexOutOfBounds("list index out of range"))
    else MakeResList(Strip(pieces[1]), Strip(pieces[0]))
  }

  function ChainParts(parts: seq<string>): Result<seq<string>>
  {
    if parts == [] then Ok([])
    else
      match ChainPart(parts[0])
      case Err(e) => Err(e)
      case Ok(names) =>
        match ChainParts(parts[1..])
        case Err(e) => Err(e)
        case Ok(more) => Ok(names + more)
  }

  /**
   * getResList(resArg): `;` separates `chain: spec` parts whose names are
   * concatenated in order; a single `chain: spec` names its chain; with no `:`
   * the chain is A.
   */
  function GetResList(resArg: string): Result<seq<string>>
  {
    if ';' in resArg then ChainParts(Split(resArg, ';'))
    else if ':' in resArg then ChainPart(resArg)
    else MakeResList(resArg, "A")
  }

  /** The residue names of `p1; p2; …` are those of p1, then p2, and so on. */
  lemma {:induction false} GetResListConcatenates(parts: seq<string>)
    requires |parts| >= 2
    requires forall i | 0 <= i < |parts| :: ';' !in parts[i]
    ensures GetResList(Join(parts, ";")) == ChainParts(parts)
  {
    SplitJoin(parts, ';');
    assert ';' in Join(parts, ";") by {
      assert Join(parts, ";") == parts[0] + ";" + Join(parts[1..], ";");
      assert Join(parts, ";")[|parts[0]|] == ';';
    }
  }

  /** Without a chain prefix the residues are named in chain A. */
  lemma {:induction false} GetResListDefaultsToChainA(resArg: string)
    requires ';' !in resArg && ':' !in resArg
    ensures GetResList(resArg) == MakeResList(resArg, "A")
  {
  }

  /** A single `chain: spec` part names the residues of spec in that chain, both stripped. */
  lemma {:induction false} GetResListExplicitChain(chain: string, spec: string)
    requires ':' !in chain && ':' !in spec && ';' !in chain && ';' !in spec
    ensures GetResList(chain + ":" + spec) == MakeResList(Strip(spec), Strip(chain))
  {
    var arg := chain + ":" + spec;
    assert Join([chain, spec], ":") == arg;
    SplitJoin([chain, spec], ':');
    assert arg[|chain|] == ':';
    assert ';' !in arg by {
      assert forall i | 0 <= i < |arg| :: arg[i] == ':' || arg[i] in chain || arg[i] in spec;
    }
  }

  // ---------------------------------------------------------------------------
  // file list and argument checks
  // ---------------------------------------------------------------------------

  /** os.path.join(a, b) for two parts. */
  function PathJoin(a: string, b: string): (r: string)
    ensures StartsWith(b, "/") ==> r == b
    ensures !StartsWith(b, "/") ==> StartsWith(r, a) && EndsWith(r, b)
  {
    if StartsWith(b, "/") then b
    else if a == "" || EndsWith(a, "/") then a + b
    else a + "/" + b
  }

  /** head.rstrip('/'): drops the trailing slashes. */
  function StripSlashes(s: string): (r: string)
    ensures |r| <= |s| && r == s[..|r|] && (|r| > 0 ==> r[|r| - 1] != '/')
    ensures forall k | |r| <= k < |s| :: s[k] == '/'
  {
    if |s| > 0 && s[|s| - 1] == '/' then StripSlashes(s[..|s| - 1]) else s
  }

  /** os.path.split(p): the head without its trailing slashes (unless it is all slashes) and the tail. */
  function PathSplit(p: string): (r: (string, string))
    ensures '/' !in r.1
  {
    var i := FindLastChar(p, '/') + 1;
    var head := p[..i];
    var tail := p[i..];
    var trimmed := StripSlashes(head);
    (if trimmed == "" then head else trimmed, tail)
  }

  /** The tokens of a comma list, kept when non-empty and then stripped. */
  function StrippedTokens(tokens: seq<string>): (r: seq<string>)
    ensures |r| <= |tokens|
  {
    if tokens == [] then []
    else if tokens[0] == "" then StrippedTokens(tokens[1..])
    else [Strip(tokens[0])] + StrippedTokens(tokens[1..])
  }

  /**
   * makeFileList(fileArg): "" gives nothing, "*" the final*.pdb files found
   * under final/ (the directory listing is an input here), a comma list its
   * non-empty stripped names under final/, anything else that one name.
   */
  function MakeFileList(fileArg: string, finalPdbFiles: seq<string>): (r: seq<string>)
    ensures fileArg == "*" ==> r == finalPdbFiles
    ensures fileArg != "*" ==> forall i | 0 <= i < |r| :: StartsWith(r[i], "final/") || StartsWith(r[i], "/")
    ensures fileArg != "*" && ',' !in fileArg ==> |r| == if fileArg == "" then 0 else 1
  {
    if fileArg == "" then []
    else if fileArg == "*" then finalPdbFiles
    else if ',' in fileArg then
      var names := StrippedTokens(Split(fileArg, ','));
      seq(|names|, i requires 0 <= i < |names| => PathJoin("final", names[i]))
    else [PathJoin("final", Strip(fileArg))]
  }

  /** The atom names of a comma-separated atom argument. */
  function AtomList(arg: string): seq<string> { StrippedTokens(Split(arg, ',')) }

  predicate Overlap(a: seq<string>, b: seq<string>)
  {
    exists i | 0 <= i < |a| :: a[i] in b
  }

  datatype SuperArgs = SuperArgs(
    excludeRes: seq<string>,
    excludeAtoms: seq<string>,
    includeRes: seq<string>,
    includeAtoms: seq<string>,
    files: seq<string>)

  /**
   * parseArgs after argparse: builds the residue and atom lists, aborts when
   * an excluded residue or atom is also included, and when either PDB option
   * is missing; the reference file is appended to the calculated ones.
   */
  function ParseArgs(resArgE: string, atomArgE: string, resArgI: string, atomArgI: string,
                     calcPdbList: Option<string>, refPdbFile: Option<string>,
                     finalPdbFiles: seq<string>): (r: Result<SuperArgs>)
    ensures r.Ok? ==> !Overlap(r.value.excludeRes, r.value.includeRes)
    ensures r.Ok? ==> !Overlap(r.value.excludeAtoms, r.value.includeAtoms)
    ensures r.Ok? ==> (calcPdbList.Some? && refPdbFile.Some? && |r.value.files| > 0
                       && r.value.files[|r.value.files| - 1] == refPdbFile.value)
    ensures (GetResList(resArgE).Ok? && GetResList(resArgI).Ok?
             && Overlap(GetResList(resArgE).value, GetResList(resArgI).value)) ==> r.Err?
    ensures Overlap(AtomList(atomArgE), AtomList(atomArgI)) ==> r.Err?
  {
    var resE := GetResList(resArgE);
    var resI := GetResList(resArgI);
    var atomE := AtomList(atomArgE);
    var atomI := AtomList(atomArgI);
    if resE.Err? then Err(resE.error)
    else if resI.Err? then Err(resI.error)
    else if Overlap(resE.value, resI.value) then Err(SystemExit("residues cannot be both excluded and included"))
    else if Overlap(atomE, atomI) then Err(SystemExit("atoms cannot be both excluded and included"))
    else if calcPdbList.None? then Err(SystemExit("calculated structure PDB files must be specified"))
    else if refPdbFile.None? then Err(SystemExit("reference structure PDB file must be specified"))
    else Ok(SuperArgs(resE.value, atomE, resI.value, atomI, MakeFileList(calcPdbList.value, finalPdbFiles) + [refPdbFile.value]))
  }

  // ---------------------------------------------------------------------------
  // findRepresentative
  // ---------------------------------------------------------------------------

  /** One result of the pairwise superposition: model iMove fitted onto model iFix. */
  datatype PairResult = PairResult(iFix: int, iMove: int, rms: real)

  function TotalRms(results: seq<PairResult>): real
  {
    if results == [] then 0.0 else TotalRms(results[..|results| - 1]) + results[|results| - 1].rms
  }

  /** The sum of the rms values of the pairs whose fixed model is i. */
  function SumFix(results: seq<PairResult>, i: int): real
  {
    if results == [] then 0.0
    else SumFix(results[..|results| - 1], i) + (if results[|results| - 1].iFix == i then results[|results| - 1].rms else 0.0)
  }

  predicate HasFix(results: seq<PairResult>, i: int)
  {
    exists k | 0 <= k < |results| :: results[k].iFix == i
  }

  lemma {:induction false} SumFixWithoutFix(results: seq<PairResult>, i: int)
    requires !HasFix(results, i)
    ensures SumFix(results, i) == 0.0
  {
    if results != [] {
      var prefix := results[..|results| - 1];
      assert forall w | 0 <= w < |prefix| :: prefix[w] == results[w];
      SumFixWithoutFix(prefix, i);
    }
  }

  predicate Increasing(s: seq<int>) { forall i, j | 0 <= i < j < |s| :: s[i] < s[j] }

  /** TreeSet.add: the value joins the ascending sequence unless it is already there. */
  function AddSorted(x: int, s: seq<int>): (r: seq<int>)
    requires Increasing(s)
    ensures Increasing(r)
    ensures forall y :: y in r <==> y == x || y in s
    ensures |r| > 0 && (r[0] == x || (s != [] && r[0] == s[0]))
  {
    if s == [] then [x]
    else if x == s[0] then s
    else if x < s[0] then [x] + s
    else
      var rest := AddSorted(x, s[1..]);
      assert s == [s[0]] + s[1..];
      assert s[0] < rest[0];
      [s[0]] + rest
  }

  /** The TreeSet of the structure numbers other than 0, in its ascending iteration order. */
  function ModelTree(structures: seq<int>): (r: seq<int>)
    ensures Increasing(r)
    ensures forall y :: y in r <==> y in structures && y != 0
  {
    if structures == [] then []
    else
      var prev := ModelTree(structures[..|structures| - 1]);
      var x := structures[|structures| - 1];
      assert structures == structures[..|structures| - 1] + [x];
      if x == 0 then prev else AddSorted(x, prev)
  }

  /** The mean rms of model i against the others, nFiles being the number of models. */
  function AvgRms(results: seq<PairResult>, i: int, nFiles: int): real
    requires nFiles != 1
  {
    SumFix(results, i) / ((nFiles - 1) as real)
  }

  /** The script's initial bound on a model's mean rms. */
  const MinRmsStart: real := 1000000.0

  datatype Representative = Representative(minIndex: int, minRms: real, avgRms: real)

  /**
   * findRepresentative: the model, taken in ascending order, whose mean rms
   * against the others is strictly the smallest (so ties go to the lowest
   * number), that mean, and the mean over all pair results. The failures of
   * the script are errors: a model that is never the fixed one (KeyError), a
   * single model (division by nFiles-1 = 0), no pair results (division by
   * zero) and no mean below the initial bound (minIndex unbound).
   */
  method FindRepresentative(structures: seq<int>, results: seq<PairResult>) returns (r: Result<Representative>)
    ensures var models := ModelTree(structures);
      r.Ok? <==> ((forall i | i in models :: HasFix(results, i)) && |models| != 1 && |results| > 0
                  && exists i | i in models :: AvgRms(results, i, |models|) < MinRmsStart)
    ensures var models := ModelTree(structures);
      r.Ok? ==> (|models| != 1 && |results| > 0
                 && r.value.minIndex in models
                 && r.value.minRms == AvgRms(results, r.value.minIndex, |models|)
                 && (forall j | j in models :: r.value.minRms <= AvgRms(results, j, |models|))
                 && (forall j | j in models && j < r.value.minIndex :: r.value.minRms < AvgRms(results, j, |models|))
                 && r.value.avgRms == TotalRms(results) / (|results| as real))
  {
    var treeSet := ModelTree(structures);
    var totalRms, averageToI := SumPairResults(results);
    var best := SelectMinimum(treeSet, results, averageToI);
    if best.Err? {
      return Err(best.error);
    }
    if |results| == 0 {
      return Err(ZeroDivision("float division by zero"));
    }
    var avgRms := totalRms / (|results| as real);
    if best.value.None? {
      return Err(UnboundLocal("minIndex"));
    }
    var (minIndex, minRms) := best.value.value;
    r := Ok(Representative(minIndex, minRms, avgRms));
  }

  /**
   * The second loop of findRepresentative: over the models in ascending
   * order, divides each model's sum by nFiles-1 and keeps the first strictly
   * smallest mean below the initial bound.
   */
  method SelectMinimum(treeSet: seq<int>, results: seq<PairResult>, averageToI: map<int, real>)
      returns (r: Result<Option<(int, real)>>)
    requires Increasing(treeSet)
    requires forall i | i in averageToI :: HasFix(results, i) && averageToI[i] == SumFix(results, i)
    requires forall i | i in treeSet :: i in averageToI <==> HasFix(results, i)
    ensures r.Ok? <==> (forall i | i in treeSet :: HasFix(results, i)) && |treeSet| != 1
    ensures r.Ok? && r.value.None? ==> forall i | i in treeSet :: AvgRms(results, i, |treeSet|) >= MinRmsStart
    ensures r.Ok? && r.value.Some? ==> (
      var (minIndex, minRms) := r.value.value;
      minIndex in treeSet && minRms == AvgRms(results, minIndex, |treeSet|) && minRms < MinRmsStart
      && (forall j | j in treeSet :: minRms <= AvgRms(results, j, |treeSet|))
      && (forall j | j in treeSet && j < minIndex :: minRms < AvgRms(results, j, |treeSet|)))
  {
    var nFiles := |treeSet|;
    var sums := averageToI;
    var minRms := MinRmsStart;
    var minIndex: Option<int> := None;
    for k := 0 to nFiles
      invariant forall t | 0 <= t < k :: HasFix(results, treeSet[t])
      invariant k > 0 ==> nFiles != 1
      invariant forall t | k <= t < nFiles :: treeSet[t] in sums <==> HasFix(results, treeSet[t])
      invariant forall t | k <= t < nFiles && treeSet[t] in sums :: sums[treeSet[t]] == SumFix(results, treeSet[t])
      invariant nFiles != 1 ==> MinimumSoFar(treeSet, results, nFiles, k, minIndex, minRms)
    {
      var i := treeSet[k];
      if i !in sums {
        return Err(KeyError("model without pair results"));
      }
      if nFiles - 1 == 0 {
        return Err(ZeroDivision("float division by zero"));
      }
      var avg := sums[i] / ((nFiles - 1) as real);
      sums := sums[i := avg];
      MinimumStep(treeSet, results, nFiles, k, minIndex, minRms, avg);
      if avg < minRms {
        minRms := avg;
        minIndex := Some(i);
      }
    }
    MinimumFound(treeSet, results, minIndex, minRms);
    if minIndex.None? {
      return Ok(None);
    }
    r := Ok(Some((minIndex.value, minRms)));
  }

  /**
   * The state of the selection after the first k models: no mean so far
   * below the bound, or the first model with the smallest mean so far.
   */
  ghost predicate MinimumSoFar(treeSet: seq<int>, results: seq<PairResult>, nFiles: int, k: nat,
                               minIndex: Option<int>, minRms: real)
    requires nFiles != 1 && k <= |treeSet|
  {
    (minIndex.None? ==> minRms == MinRmsStart && forall t | 0 <= t < k :: AvgRms(results, treeSet[t], nFiles) >= MinRmsStart)
    && (minIndex.Some? ==> exists q | 0 <= q < k :: (treeSet[q] == minIndex.value
          && minRms == AvgRms(results, minIndex.value, nFiles) && minRms < MinRmsStart
          && (forall t | 0 <= t < k :: minRms <= AvgRms(results, treeSet[t], nFiles))
          && (forall t | 0 <= t < q :: minRms < AvgRms(results, treeSet[t], nFiles))))
  }

  /** Taking model k with mean avg: a strictly smaller mean replaces the minimum. */
  lemma {:induction false} MinimumStep(treeSet: seq<int>, results: seq<PairResult>, nFiles: int, k: nat,
                                       minIndex: Option<int>, minRms: real, avg: real)
    requires nFiles != 1 && k < |treeSet| && MinimumSoFar(treeSet, results, nFiles, k, minIndex, minRms)
    requires avg == AvgRms(results, treeSet[k], nFiles)
    ensures MinimumSoFar(treeSet, results, nFiles, k + 1,
                         if avg < minRms then Some(treeSet[k]) else minIndex, if avg < minRms then avg else minRms)
  {
    if avg < minRms {
      if minIndex.Some? {
        var q :| 0 <= q < k && treeSet[q] == minIndex.value && minRms < MinRmsStart
          && (forall t | 0 <= t < k :: minRms <= AvgRms(results, treeSet[t], nFiles));
      }
      assert forall t | 0 <= t < k :: avg < AvgRms(results, treeSet[t], nFiles);
    } else if minIndex.Some? {
      var q :| 0 <= q < k && treeSet[q] == minIndex.value
        && minRms == AvgRms(results, minIndex.value, nFiles) && minRms < MinRmsStart
        && (forall t | 0 <= t < k :: minRms <= AvgRms(results, treeSet[t], nFiles))
        && (forall t | 0 <= t < q :: minRms < AvgRms(results, treeSet[t], nFiles));
      assert q < k + 1;
    }
  }

  /** After every model, the selection is the first model with the smallest mean, if that mean is below the bound. */
  lemma {:induction false} MinimumFound(treeSet: seq<int>, results: seq<PairResult>, minIndex: Option<int>, minRms: real)
    requires Increasing(treeSet) && |treeSet| != 1
    requires MinimumSoFar(treeSet, results, |treeSet|, |treeSet|, minIndex, minRms)
    ensures minIndex.None? ==> forall i | i in treeSet :: AvgRms(results, i, |treeSet|) >= MinRmsStart
    ensures minIndex.Some? ==>
      minIndex.value in treeSet && minRms == AvgRms(results, minIndex.value, |treeSet|) && minRms < MinRmsStart
      && (forall j | j in treeSet :: minRms <= AvgRms(results, j, |treeSet|))
      && (forall j | j in treeSet && j < minIndex.value :: minRms < AvgRms(results, j, |treeSet|))
  {
    var nFiles := |treeSet|;
    if minIndex.None? {
      forall i | i in treeSet ensures AvgRms(results, i, nFiles) >= MinRmsStart {
        var t :| 0 <= t < nFiles && treeSet[t] == i;
      }
    } else {
      var q :| 0 <= q < nFiles && treeSet[q] == minIndex.value
        && minRms == AvgRms(results, minIndex.value, nFiles) && minRms < MinRmsStart
        && (forall t | 0 <= t < nFiles :: minRms <= AvgRms(results, treeSet[t], nFiles))
        && (forall t | 0 <= t < q :: minRms < AvgRms(results, treeSet[t], nFiles));
      forall j | j in treeSet ensures minRms <= AvgRms(results, j, nFiles) {
        var t :| 0 <= t < nFiles && treeSet[t] == j;
      }
      forall j | j in treeSet && j < minIndex.value ensures minRms < AvgRms(results, j, nFiles) {
        var t :| 0 <= t < nFiles && treeSet[t] == j;
        assert t < q;
      }
    }
  }

  /** The first loop of findRepresentative: the total rms and, per fixed model, the sum of its rms values. */
  method SumPairResults(results: seq<PairResult>) returns (totalRms: real, averageToI: map<int, real>)
    ensures totalRms == TotalRms(results)
    ensures forall i :: i in averageToI <==> HasFix(results, i)
    ensures forall i | i in averageToI :: averageToI[i] == SumFix(results, i)
  {
    totalRms := 0.0;
    averageToI := map[];
    for k := 0 to |results|
      invariant totalRms == TotalRms(results[..k])
      invariant forall i :: i in averageToI <==> HasFix(results[..k], i)
      invariant forall i | i in averageToI :: averageToI[i] == SumFix(results[..k], i)
    {
      var res := results[k];
      assert results[..k + 1][..k] == results[..k];
      totalRms := totalRms + res.rms;
      if res.iFix !in averageToI {
        SumFixWithoutFix(results[..k], res.iFix);
        averageToI := averageToI[res.iFix := 0.0];
      }
      averageToI := averageToI[res.iFix := averageToI[res.iFix] + res.rms];
      forall i | i in averageToI ensures averageToI[i] == SumFix(results[..k + 1], i) {
        assert SumFix(results[..k + 1], i) == SumFix(results[..k], i) + (if res.iFix == i then res.rms else 0.0);
      }
      forall i ensures i in averageToI <==> HasFix(results[..k + 1], i) {
        if HasFix(results[..k + 1], i) && i != res.iFix {
          var w :| 0 <= w < k + 1 && results[..k + 1][w].iFix == i;
          assert results[..k][w].iFix == i;
        }
      }
    }
    assert results[..|results|] == results;
  }

  // ---------------------------------------------------------------------------
  // findCore
  // ---------------------------------------------------------------------------

  /** An atom with its deviation value, stored by the RMSD calculation as its B-factor. */
  datatype AtomB = AtomB(name: string, bfactor: real)
  datatype ResidueB = ResidueB(number: string, atoms: seq<AtomB>)
  datatype PolymerB = PolymerB(name: string, residues: seq<ResidueB>)

  /** A scored residue: polymer name, residue number and mean deviation. */
  datatype Scored = Scored(polymer: string, number: string, score: real)

  /** The script's default backbone atom names, already split on `,`. */
  const BackboneNames: seq<string> := ["ca", "c", "n", "o", "p", "o5'", "c5'", "c4'", "c3'", "o3'"]

  /** The selection lists of findCore, with the atom lists already lower-cased. */
  datatype CoreSelection = CoreSelection(
    excludeRes: seq<string>,
    includeRes: seq<string>,
    excludeAtomsL: seq<string>,
    includeAtomsL: seq<string>,
    atomNameList: seq<string>)

  predicate ResidueSkipped(sel: CoreSelection, res: string)
  {
    res in sel.excludeRes || ("*" !in sel.includeRes && res !in sel.includeRes)
  }

  /** An atom that contributes: not excluded, included (or all are) and named in the atom name list. */
  predicate AtomCounts(sel: CoreSelection, a: AtomB)
  {
    var aName := Lower(a.name);
    !(aName in sel.excludeAtomsL || ("*" !in sel.includeAtomsL && aName !in sel.includeAtomsL))
    && aName in sel.atomNameList
  }

  function CountingSum(sel: CoreSelection, atoms: seq<AtomB>): real
  {
    if atoms == [] then 0.0
    else CountingSum(sel, atoms[..|atoms| - 1]) + (if AtomCounts(sel, atoms[|atoms| - 1]) then atoms[|atoms| - 1].bfactor else 0.0)
  }

  function CountingAtoms(sel: CoreSelection, atoms: seq<AtomB>): nat
  {
    if atoms == [] then 0
    else CountingAtoms(sel, atoms[..|atoms| - 1]) + (if AtomCounts(sel, atoms[|atoms| - 1]) then 1 else 0)
  }

  /** The scores of one polymer's residues, skipped residues and residues with no counting atom omitted. */
  function ScorePolymer(sel: CoreSelection, p: PolymerB, residues: seq<ResidueB>): seq<Scored>
  {
    if residues == [] then []
    else
      var prev := ScorePolymer(sel, p, residues[..|residues| - 1]);
      var res := residues[|residues| - 1];
      var n := CountingAtoms(sel, res.atoms);
      if ResidueSkipped(sel, p.name + "." + res.number) || n == 0 then prev
      else prev + [Scored(p.name, res.number, CountingSum(sel, res.atoms) / (n as real))]
  }

  function ScoreAll(sel: CoreSelection, polymers: seq<PolymerB>): seq<Scored>
  {
    if polymers == [] then []
    else ScoreAll(sel, polymers[..|polymers| - 1]) + ScorePolymer(sel, polymers[|polymers| - 1], polymers[|polymers| - 1].residues)
  }

  /** A residue is scored only when it is selected and has a counting atom, and its score is their mean B-factor. */
  lemma {:induction false} ScoredResiduesQualify(sel: CoreSelection, p: PolymerB, residues: seq<ResidueB>, k: nat)
    requires k < |ScorePolymer(sel, p, residues)|
    ensures var e := ScorePolymer(sel, p, residues)[k];
      exists j | 0 <= j < |residues| ::
        e.polymer == p.name && e.number == residues[j].number
        && !ResidueSkipped(sel, p.name + "." + residues[j].number)
        && CountingAtoms(sel, residues[j].atoms) > 0
        && e.score == CountingSum(sel, residues[j].atoms) / (CountingAtoms(sel, residues[j].atoms) as real)
  {
    var prev := ScorePolymer(sel, p, residues[..|residues| - 1]);
    var last := |residues| - 1;
    if k < |prev| {
      ScoredResiduesQualify(sel, p, residues[..last], k);
      var j :| 0 <= j < last && ScorePolymer(sel, p, residues)[k].number == residues[..last][j].number
        && !ResidueSkipped(sel, p.name + "." + residues[..last][j].number)
        && CountingAtoms(sel, residues[..last][j].atoms) > 0
        && ScorePolymer(sel, p, residues)[k].polymer == p.name
        && ScorePolymer(sel, p, residues)[k].score == CountingSum(sel, residues[..last][j].atoms) / (CountingAtoms(sel, residues[..last][j].atoms) as real);
      assert residues[..last][j] == residues[j];
    } else {
      assert ScorePolymer(sel, p, residues)[k].number == residues[last].number;
    }
  }

  /** Every selected residue with a counting atom is scored. */
  lemma {:induction false} QualifyingResiduesScored(sel: CoreSelection, p: PolymerB, residues: seq<ResidueB>, j: nat)
    requires j < |residues|
    requires !ResidueSkipped(sel, p.name + "." + residues[j].number)
    requires CountingAtoms(sel, residues[j].atoms) > 0
    ensures Scored(p.name, residues[j].number,
      CountingSum(sel, residues[j].atoms) / (CountingAtoms(sel, residues[j].atoms) as real)) in ScorePolymer(sel, p, residues)
  {
    var last := |residues| - 1;
    if j < last {
      QualifyingResiduesScored(sel, p, residues[..last], j);
      assert residues[..last][j] == residues[j];
    }
  }

  /** A residue is in the core when its score is strictly below twice the median. */
  predicate InCore(v: seq<Scored>, med: real, k: int)
    requires 0 <= k < |v|
  {
    v[k].score < 2.0 * med
  }

  /** The first position of the run of core residues that contains position k. */
  function RunStart(v: seq<Scored>, med: real, k: nat): (a: nat)
    requires k < |v| && InCore(v, med, k)
    ensures a <= k && forall t | a <= t <= k :: InCore(v, med, t)
    ensures a == 0 || !InCore(v, med, a - 1)
  {
    if k > 0 && InCore(v, med, k - 1) then RunStart(v, med, k - 1) else k
  }

  /**
   * What the scan emits on reaching position k: the run that ended just
   * before k, or, when the run goes on, the run so far if k carries the
   * number of the final residue.
   */
  function StepEmit(v: seq<Scored>, med: real, k: nat): seq<(string, string)>
    requires k < |v|
  {
    if k == 0 then []
    else if InCore(v, med, k - 1) && !InCore(v, med, k) then [(v[RunStart(v, med, k - 1)].number, v[k - 1].number)]
    else if InCore(v, med, k - 1) && InCore(v, med, k) && v[k].number == v[|v| - 1].number then
      [(v[RunStart(v, med, k)].number, v[k].number)]
    else []
  }

  /** The ranges emitted over the first n positions. */
  function CoreUpTo(v: seq<Scored>, med: real, n: nat): seq<(string, string)>
    requires n <= |v|
  {
    if n == 0 then [] else CoreUpTo(v, med, n - 1) + StepEmit(v, med, n - 1)
  }

  /**
   * The run scan of findCore: a two-state machine (out/in) over the scored
   * residues that records each run's start and emits (start, last) ranges.
   */
  method CoreScan(v: seq<Scored>, med: real) returns (coreRes: seq<(string, string)>)
    requires |v| > 0
    ensures coreRes == CoreUpTo(v, med, |v|)
  {
    var lastNum := v[|v| - 1].number;
    var inState := false;
    var start := "";
    var lastRes := "";
    coreRes := [];
    for k := 0 to |v|
      invariant coreRes == CoreUpTo(v, med, k)
      invariant k == 0 ==> !inState
      invariant k > 0 ==> inState == InCore(v, med, k - 1) && lastRes == v[k - 1].number
      invariant k > 0 && inState ==> start == v[RunStart(v, med, k - 1)].number
    {
      var num := v[k].number;
      var newState := v[k].score < 2.0 * med;
      if !inState {
        if newState {
          start := num;
        }
      } else {
        if !newState {
          coreRes := coreRes + [(start, lastRes)];
        } else if num == lastNum {
          coreRes := coreRes + [(start, num)];
        }
      }
      inState := newState;
      lastRes := num;
    }
  }

  /** Positions a..b are core residues and the one before a (if any) is not. */
  predicate IsRun(v: seq<Scored>, med: real, a: nat, b: nat)
  {
    a <= b < |v| && (forall q | a <= q <= b :: InCore(v, med, q)) && (a == 0 || !InCore(v, med, a - 1))
  }

  /** Every emitted range runs from the start of a run of core residues to a core residue of that run. */
  lemma {:induction false} CoreRangesAreRuns(v: seq<Scored>, med: real, n: nat, t: nat)
    requires n <= |v| && t < |CoreUpTo(v, med, n)|
    ensures exists a, b | 0 <= a <= b < n :: CoreUpTo(v, med, n)[t] == (v[a].number, v[b].number) && IsRun(v, med, a, b)
  {
    var k := n - 1;
    var prev := CoreUpTo(v, med, k);
    var e := StepEmit(v, med, k);
    assert CoreUpTo(v, med, n) == prev + e;
    if t < |prev| {
      CoreRangesAreRuns(v, med, k, t);
      var a, b :| 0 <= a <= b < k && prev[t] == (v[a].number, v[b].number) && IsRun(v, med, a, b);
      assert CoreUpTo(v, med, n)[t] == prev[t];
    } else {
      EmittedIsRun(v, med, k);
      var a, b :| 0 <= a <= b <= k && e == [(v[a].number, v[b].number)] && IsRun(v, med, a, b);
      assert CoreUpTo(v, med, n)[t] == e[0];
    }
  }

  /** What the scan emits at one position, if anything, is a single range over a run. */
  lemma {:induction false} EmittedIsRun(v: seq<Scored>, med: real, k: nat)
    requires k < |v| && |StepEmit(v, med, k)| > 0
    ensures exists a, b | 0 <= a <= b <= k :: StepEmit(v, med, k) == [(v[a].number, v[b].number)] && IsRun(v, med, a, b)
  {
    if InCore(v, med, k - 1) && !InCore(v, med, k) {
      var a := RunStart(v, med, k - 1);
      assert IsRun(v, med, a, k - 1);
    } else {
      var a := RunStart(v, med, k);
      assert IsRun(v, med, a, k);
    }
  }

  /** A run of core residues that is followed by a residue outside the core is emitted. */
  lemma {:induction false} ClosedRunEmitted(v: seq<Scored>, med: real, a: nat, b: nat, n: nat)
    requires b + 1 < n <= |v| && IsRun(v, med, a, b) && !InCore(v, med, b + 1)
    ensures (v[a].number, v[b].number) in CoreUpTo(v, med, n)
    decreases n
  {
    if n - 1 == b + 1 {
      RunStartIs(v, med, a, b);
      assert StepEmit(v, med, b + 1) == [(v[a].number, v[b].number)];
    } else {
      ClosedRunEmitted(v, med, a, b, n - 1);
    }
  }

  lemma {:induction false} RunStartIs(v: seq<Scored>, med: real, a: nat, b: nat)
    requires IsRun(v, med, a, b)
    ensures RunStart(v, med, b) == a
    decreases b
  {
    if b > a {
      RunStartIs(v, med, a, b - 1);
    }
  }

  /** A run that begins at the final residue is never emitted. */
  lemma {:induction false} RunAtFinalResidueNotEmitted(v: seq<Scored>, med: real)
    requires |v| > 0
    requires |v| == 1 || !InCore(v, med, |v| - 2)
    ensures CoreUpTo(v, med, |v|) == CoreUpTo(v, med, |v| - 1)
  {
  }

  /** A core range printed as the script prints it: `n` alone, else `start-end`. */
  function FormatRange(range: (string, string)): string
  {
    if range.0 == range.1 then range.0 else range.0 + "-" + range.1
  }

  /** The scores, in order, that the median is taken over. */
  function Scores(v: seq<Scored>): (r: seq<real>)
    ensures |r| == |v|
  {
    seq(|v|, i requires 0 <= i < |v| => v[i].score)
  }

  /**
   * findCore after the superposition: scores every selected residue, takes
   * the median, scans for runs below twice the median and formats them.
   * With no scored residue the script fails on resValues[-1].
   */
  method FindCore(sel: CoreSelection, polymers: seq<PolymerB>) returns (r: Result<seq<string>>)
    ensures var v := ScoreAll(sel, polymers);
      r.Ok? <==> |v| > 0
    ensures var v := ScoreAll(sel, polymers);
      |v| > 0 ==> (r.Ok? &&
                   var med := MedianOfSorted(SortValues(Scores(v))).value;
                   r.value == FormatAll(CoreUpTo(v, med, |v|)))
  {
    var v := ScoreAll(sel, polymers);
    var scores := new real[|v|](i requires 0 <= i < |v| => v[i].score);
    assert scores[..] == Scores(v);
    var med := Median(scores);
    ghost var sorted := SortValues(Scores(v));
    assert med == MedianOfSorted(sorted) by {
      SortedUnique(scores[..], sorted);
    }
    if |v| == 0 {
      return Err(IndexOutOfBounds("list index out of range"));
    }
    var ranges := CoreScan(v, med.value);
    var resSelect := FormatRanges(ranges);
    r := Ok(resSelect);
  }

  /** The core ranges as the script prints them, in order. */
  function FormatAll(ranges: seq<(string, string)>): (r: seq<string>)
    ensures |r| == |ranges| && forall i | 0 <= i < |ranges| :: r[i] == FormatRange(ranges[i])
  {
    seq(|ranges|, i requires 0 <= i < |ranges| => FormatRange(ranges[i]))
  }

  /** The last loop of findCore, which formats the ranges one by one. */
  method FormatRanges(ranges: seq<(string, string)>) returns (resSelect: seq<string>)
    ensures resSelect == FormatAll(ranges)
  {
    resSelect := [];
    for k := 0 to |ranges|
      invariant |resSelect| == k && forall i | 0 <= i < k :: resSelect[i] == FormatRange(ranges[i])
    {
      var (start, end) := ranges[k];
      if start == end {
        resSelect := resSelect + [start];
      } else {
        resSelect := resSelect + [start + "-" + end];
      }
    }
  }

  // ---------------------------------------------------------------------------
  // doSelections and saveModels
  // ---------------------------------------------------------------------------

  /**
   * doSelections: clears the flag of every atom, then sets it on the atoms
   * that each `res.atoms` selection picks. `selects` stands for the
   * molecule's selection language, which is outside the model.
   */
  method DoSelections<A(==)>(atoms: set<A>, resSelects: seq<string>, atomSelect: string,
                             selects: (string, A) -> bool) returns (flag: map<A, bool>)
    ensures flag.Keys == atoms
    ensures forall a | a in atoms ::
      flag[a] <==> exists k | 0 <= k < |resSelects| :: selects(resSelects[k] + "." + atomSelect, a)
  {
    flag := map a | a in atoms :: false;
    for k := 0 to |resSelects|
      invariant flag.Keys == atoms
      invariant forall a | a in atoms ::
        flag[a] <==> exists t | 0 <= t < k :: selects(resSelects[t] + "." + atomSelect, a)
    {
      var selection := resSelects[k] + "." + atomSelect;
      flag := map a | a in atoms :: selects(selection, a) || flag[a];
    }
  }

  /** The file a model is saved to: `sup_` before the file name, in the same directory. */
  function SupFile(file: string): string
  {
    var (dir, fileName) := PathSplit(file);
    PathJoin(dir, "sup_" + fileName)
  }

  /**
   * saveModels: pairs the active structures with the input files (zip stops
   * at the shorter) and gives each its `sup_` file.
   */
  function SaveModels(active: seq<int>, files: seq<string>): (r: seq<(int, string)>)
    ensures |r| == if |active| < |files| then |active| else |files|
    ensures forall i | 0 <= i < |r| :: r[i] == (active[i], SupFile(files[i]))
  {
    if active == [] || files == [] then [] else [(active[0], SupFile(files[0]))] + SaveModels(active[1..], files[1..])
  }

  /**
   * The saved path is the input path with `sup_` inserted before its last
   * component, when the directory part does not end in a doubled slash.
   */
  lemma {:induction false} SupFileInsertsPrefix(file: string)
    requires var i := FindLastChar(file, '/') + 1; i < 2 || file[i - 2] != '/'
    ensures var i := FindLastChar(file, '/') + 1; SupFile(file) == file[..i] + "sup_" + file[i..]
  {
    var i := FindLastChar(file, '/') + 1;
    PathSplitDirectory(file);
    JoinSupName(file[..i], file[i..]);
  }

  /** Joining the split head back to `sup_` + name restores the slash the split dropped. */
  lemma {:induction false} JoinSupName(head: string, name: string)
    requires |head| < 2 || head[|head| - 2] != '/'
    requires |head| > 0 ==> head[|head| - 1] == '/'
    ensures PathJoin(if |head| < 2 then head else head[..|head| - 1], "sup_" + name) == head + "sup_" + name
  {
    var sup := "sup_" + name;
    assert !StartsWith(sup, "/") by { assert sup[0] == 's'; }
    if |head| >= 2 {
      var dir := head[..|head| - 1];
      assert !EndsWith(dir, "/") by { assert dir[|dir| - 1] == head[|head| - 2]; }
      assert dir + "/" == head;
    }
  }

  /** The head os.path.split returns: the path up to its last slash, that slash dropped unless it is the first character. */
  lemma {:induction false} PathSplitDirectory(file: string)
    requires var i := FindLastChar(file, '/') + 1; i < 2 || file[i - 2] != '/'
    ensures var i := FindLastChar(file, '/') + 1;
      PathSplit(file) == (if i < 2 then file[..i] else file[..i - 1], file[i..])
  {
    var i := FindLastChar(file, '/') + 1;
    var head := file[..i];
    if i == 1 {
      assert head[..0] == "";
      assert StripSlashes(head) == "";
    } else if i >= 2 {
      var dir := head[..i - 1];
      assert head[i - 1] == '/' && dir[i - 2] == file[i - 2] != '/';
      assert StripSlashes(dir) == dir;
      assert StripSlashes(head) == dir;
      assert dir == file[..i - 1] && dir != "";
    }
  }
}
