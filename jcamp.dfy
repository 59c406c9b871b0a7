// The parameter logic of the JCAMP-DX vendor reader: the Bruker FnMODE and
// AQ_mod decision tables, sign conventions for phases and shifts, the
// temperature unit rule, the merged parameter listing and the file-name test.
// A record the block may or may not carry is an Option parameter.

module JCAMP {
  import opened Wrappers
  import opened Text
  import opened Seqs

  // ----- FT type and coefficients -----

  /** The transform type of a dimension: "rft" (real), "negate" (hypercomplex) or "ft". */
  function FTType(dim: int, aqMod: Option<int>, fnMode: Option<int>): (r: string)
    ensures r == "ft" || r == "rft" || r == "negate"
  {
    if dim == 0 then
      (if aqMod.Some? && aqMod.value == 2 then "rft" else "ft")
    else
      var fn := if fnMode.Some? then fnMode.value else -1;
      if fn == 2 || fn == 3 then "rft"
      else if fn == 0 || fn == 5 then "negate"
      else "ft"
  }

  /** The FnMODE code of a dimension, -1 when the record is missing. */
  function FnCode(fnMode: Option<int>): int
  {
    if fnMode.Some? then fnMode.value else -1
  }

  const HyperCoefs: seq<real> := [1.0, 0.0, 0.0, 0.0, 0.0, 0.0, 1.0, 0.0]
  const EchoAntiEchoCoefs: seq<real> := [1.0, 0.0, -1.0, 0.0, 0.0, 1.0, 0.0, 1.0]
  const SepCoefs: seq<real> := [1.0, 0.0, 0.0, 1.0]

  /** The coefficient vector that combines the quadrature parts of a dimension. */
  function Coefs(dim: int, fnMode: Option<int>): seq<real>
  {
    var fn := FnCode(fnMode);
    if dim == 0 then []
    else if fn == -1 || fn == 1 || fn == 2 || fn == 3 then []
    else if fn == 4 then HyperCoefs
    else if fn == 0 || fn == 5 then HyperCoefs
    else if fn == 6 then EchoAntiEchoCoefs
    else SepCoefs
  }

  /** The symbolic name of the coefficients; None stands for Java's null. */
  function SymbolicCoefs(dim: int, fnMode: Option<int>): Option<string>
  {
    var fn := FnCode(fnMode);
    if dim == 0 then None
    else if fn == -1 then None
    else if fn == 2 || fn == 3 then Some("real")
    else if fn == 4 then Some("hyper-r")
    else if fn == 0 || fn == 5 then Some("hyper")
    else if fn == 6 then Some("echo-antiecho-r")
    else Some("sep")
  }

  /** getNegatePairs: the dimension is transformed as "negate". */
  predicate NegatePairs(dim: int, aqMod: Option<int>, fnMode: Option<int>)
  {
    FTType(dim, aqMod, fnMode) == "negate"
  }

  /** getNegateImag: every dimension but the direct one. */
  predicate NegateImag(dim: int)
  {
    dim > 0
  }

  /**
   * The three FnMODE tables agree for an indirect dimension: "negate" goes
   * with the "hyper" coefficients, "rft" with "real" and no coefficients,
   * and each symbolic name with its coefficient vector.
   */
  lemma {:induction false} FnModeTablesAgree(dim: int, aqMod: Option<int>, fnMode: Option<int>)
    requires dim != 0
    ensures NegatePairs(dim, aqMod, fnMode) <==> SymbolicCoefs(dim, fnMode) == Some("hyper")
    ensures FTType(dim, aqMod, fnMode) == "rft" <==> SymbolicCoefs(dim, fnMode) == Some("real")
    ensures SymbolicCoefs(dim, fnMode) == Some("real") ==> Coefs(dim, fnMode) == []
    ensures SymbolicCoefs(dim, fnMode) == None ==> Coefs(dim, fnMode) == []
    ensures SymbolicCoefs(dim, fnMode) in {Some("hyper"), Some("hyper-r")} ==> Coefs(dim, fnMode) == HyperCoefs
    ensures SymbolicCoefs(dim, fnMode) == Some("echo-antiecho-r") ==> Coefs(dim, fnMode) == EchoAntiEchoCoefs
    ensures |Coefs(dim, fnMode)| in {0, 4, 8}
  {
  }

  /** The direct dimension never has its pairs negated, has no coefficients and keeps its imaginary sign. */
  lemma {:induction false} DirectDimension(aqMod: Option<int>, fnMode: Option<int>)
    ensures !NegatePairs(0, aqMod, fnMode) && !NegateImag(0)
    ensures Coefs(0, fnMode) == [] && SymbolicCoefs(0, fnMode) == None
    ensures FTType(0, aqMod, fnMode) == "rft" <==> aqMod == Some(2)
  {
  }

  // ----- temperature and sign conventions -----

  /** getTempK: above 150 the value is taken as kelvin, else as Celsius; 298 K when missing. */
  function TempK(t: Option<real>): (r: real)
    ensures t.None? ==> r == 298.0
    ensures t.Some? && t.value > 150.0 ==> r == t.value
  {
    if t.None? then 298.0
    else if t.value > 150.0 then t.value
    else 273.15 + t.value
  }

  /**
   * A Celsius reading above -123.15 converts to more than 150 K, so the
   * converted value, read again, is kept as it is: the rule is idempotent
   * on every result above 150.
   */
  lemma {:induction false} TempKIdempotent(t: Option<real>)
    requires TempK(t) > 150.0
    ensures TempK(Some(TempK(t))) == TempK(t)
  {
  }

  /** Every Celsius reading from -123.15 up to 150 lands above 150 K. */
  lemma {:induction false} TempKCelsius(c: real)
    requires -123.15 < c <= 150.0
    ensures TempK(Some(c)) == c + 273.15 && TempK(Some(c)) > 150.0
  {
  }

  /** getPH0: the stored zero-order phase, less 90 on the direct dimension, with its sign reversed. */
  function PH0(dim: int, ph0: Option<real>): real
  {
    var p := if ph0.Some? then ph0.value else 0.0;
    var q := if dim == 0 then p - 90.0 else p;
    -q
  }

  /** getPH1: the stored first-order phase with its sign reversed. */
  function PH1(ph1: Option<real>): real
  {
    -(if ph1.Some? then ph1.value else 0.0)
  }

  /** getLeftShift: the stored left shift with its sign reversed. */
  function LeftShift(ls: Option<int>): int
  {
    -(if ls.Some? then ls.value else 0)
  }

  /**
   * Each conversion is its own inverse: converting a converted value again
   * gives back the stored one. Missing records read as 0 (90 for the direct
   * dimension's zero-order phase).
   */
  lemma {:induction false} SignConventions(dim: int, x: real, n: int)
    ensures PH0(dim, Some(PH0(dim, Some(x)))) == x
    ensures PH1(Some(PH1(Some(x)))) == x
    ensures LeftShift(Some(LeftShift(Some(n)))) == n
    ensures PH0(dim, None) == (if dim == 0 then 90.0 else 0.0)
    ensures PH1(None) == 0.0 && LeftShift(None) == 0
  {
  }

  // ----- file names -----

  const MatchingExtensions: seq<string> := [".jdx", ".dx"]

  /** findFID (and findData): the lower-cased path ends with one of the JCAMP extensions. */
  predicate FindFID(path: string)
  {
    exists i | 0 <= i < |MatchingExtensions| :: EndsWith(Lower(path), MatchingExtensions[i])
  }

  predicate FindData(path: string)
  {
    FindFID(path)
  }

  /** The test ignores case: a path and its lower-cased form are judged alike. */
  lemma {:induction false} FindFIDIgnoresCase(path: string)
    ensures FindFID(Lower(path)) == FindFID(path)
  {
    assert Lower(Lower(path)) == Lower(path);
  }

  /** Any path with a JCAMP extension, in any letter case, is accepted. */
  lemma {:induction false} FindFIDExtension(stem: string, ext: string)
    requires Lower(ext) in MatchingExtensions
    ensures FindFID(stem + ext) && FindData(stem + ext)
  {
    var p := stem + ext;
    assert Lower(p)[|Lower(p)| - |ext|..] == Lower(ext);
    var i :| 0 <= i < |MatchingExtensions| && MatchingExtensions[i] == Lower(ext);
    assert EndsWith(Lower(p), MatchingExtensions[i]);
  }

  /** Every accepted path ends in "dx" up to case, the tail both extensions share. */
  lemma {:induction false} FindFIDEndsInDx(path: string)
    requires FindFID(path)
    ensures |path| >= 3 && Lower(path)[|path| - 2..] == "dx"
  {
    var i :| 0 <= i < |MatchingExtensions| && EndsWith(Lower(path), MatchingExtensions[i]);
    var l := Lower(path);
    var ext := MatchingExtensions[i];
    assert ext == (if i == 0 then ".jdx" else ".dx");
    assert l[|l| - |ext|..] == ext;
    assert l[|l| - 2] == ext[|ext| - 2] == 'd' && l[|l| - 1] == ext[|ext| - 1] == 'x';
    assert l[|l| - 2..] == "dx";
  }

  // ----- parameter listing -----

  /** A record store: its record keys in iteration order and each key's string value. */
  datatype Store = Store(keys: seq<string>, values: map<string, string>)
  {
    /** Every listed key can be looked up. */
    ghost predicate WellFormed()
    {
      forall i | 0 <= i < |keys| :: keys[i] in values
    }
  }

  datatype VendorPar = VendorPar(name: string, value: string)

  function Names(pars: seq<VendorPar>): (r: seq<string>)
    ensures |r| == |pars|
  {
    seq(|pars|, i requires 0 <= i < |pars| => pars[i].name)
  }

  /** pars extended by each of keys whose name it does not list yet, valued from store. */
  function AddPars(pars: seq<VendorPar>, store: Store, keys: seq<string>): seq<VendorPar>
    requires forall i | 0 <= i < |keys| :: keys[i] in store.values
  {
    if keys == [] then pars
    else
      var r := AddPars(pars, store, keys[..|keys| - 1]);
      var k := keys[|keys| - 1];
      if k in Names(r) then r else r + [VendorPar(k, store.values[k])]
  }

  /** getPars: the block's records first, then the document's records the block does not define. */
  function Pars(block: Store, doc: Store): seq<VendorPar>
    requires block.WellFormed() && doc.WellFormed()
  {
    AddPars(AddPars([], block, block.keys), doc, doc.keys)
  }

  /** The names AddPars lists are those AppendAbsent lists. */
  lemma {:induction false} AddParsNames(pars: seq<VendorPar>, store: Store, keys: seq<string>)
    requires forall i | 0 <= i < |keys| :: keys[i] in store.values
    ensures Names(AddPars(pars, store, keys)) == AppendAbsent(Names(pars), keys)
  {
    if keys != [] {
      var n := |keys| - 1;
      AddParsNames(pars, store, keys[..n]);
      var r := AddPars(pars, store, keys[..n]);
      assert Names(r + [VendorPar(keys[n], store.values[keys[n]])]) == Names(r) + [keys[n]];
    }
  }

  /** AddPars keeps the list in front, and each entry it adds carries the store's value for its name. */
  lemma {:induction false} AddParsValues(pars: seq<VendorPar>, store: Store, keys: seq<string>)
    requires forall i | 0 <= i < |keys| :: keys[i] in store.values
    ensures |pars| <= |AddPars(pars, store, keys)|
    ensures AddPars(pars, store, keys)[..|pars|] == pars
    ensures forall i | |pars| <= i < |AddPars(pars, store, keys)| ::
              AddPars(pars, store, keys)[i].name in keys &&
              AddPars(pars, store, keys)[i].value == store.values[AddPars(pars, store, keys)[i].name]
  {
    if keys != [] {
      var n := |keys| - 1;
      AddParsValues(pars, store, keys[..n]);
      var r := AddPars(pars, store, keys[..n]);
      if keys[n] !in Names(r) {
        var r' := r + [VendorPar(keys[n], store.values[keys[n]])];
        assert r'[..|r|] == r;
        forall i | |pars| <= i < |r'|
          ensures r'[i].name in keys && r'[i].value == store.values[r'[i].name]
        {
          if i < |r| {
            assert r'[i] == r[i] && r[i].name in keys[..n];
          }
        }
      } else {
        forall i | |pars| <= i < |r| ensures r[i].name in keys {
          assert r[i].name in keys[..n];
        }
      }
    }
  }

  /**
   * The listing names every key of the block or the document exactly once,
   * the block's keys first and in block order.
   */
  lemma {:induction false} ParsNames(block: Store, doc: Store)
    requires block.WellFormed() && doc.WellFormed()
    ensures Distinct(Names(Pars(block, doc)))
    ensures forall k :: k in Names(Pars(block, doc)) <==> k in block.keys || k in doc.keys
    ensures var first := AppendAbsent([], block.keys);
            |first| <= |Pars(block, doc)| && Names(Pars(block, doc))[..|first|] == first
  {
    var first := AddPars([], block, block.keys);
    AddParsNames([], block, block.keys);
    AddParsNames(first, doc, doc.keys);
    assert Names([]) == [];
    AppendAbsentDistinct([], block.keys);
    AppendAbsentDistinct(Names(first), doc.keys);
    AppendAbsentElements([], block.keys);
    AppendAbsentElements(Names(first), doc.keys);
    AppendAbsentPrefix(Names(first), doc.keys);
  }

  /** A key the block defines takes the block's value; any other key the document's. */
  lemma {:induction false} ParsValues(block: Store, doc: Store)
    requires block.WellFormed() && doc.WellFormed()
    ensures forall i | 0 <= i < |Pars(block, doc)| ::
              var p := Pars(block, doc)[i];
              (p.name in block.values && p.value == block.values[p.name] && p.name in block.keys) ||
              (p.name !in block.keys && p.name in doc.values && p.value == doc.values[p.name])
  {
    var first := AddPars([], block, block.keys);
    var all := Pars(block, doc);
    assert forall k | k in block.keys :: k in Names(first) by {
      AddParsNames([], block, block.keys);
      assert Names([]) == [];
      AppendAbsentElements([], block.keys);
    }
    assert |first| <= |all| && all[..|first|] == first by {
      AddParsValues(first, doc, doc.keys);
    }
    forall i | 0 <= i < |all|
      ensures (all[i].name in block.values && all[i].value == block.values[all[i].name] && all[i].name in block.keys) ||
              (all[i].name !in block.keys && all[i].name in doc.values && all[i].value == doc.values[all[i].name])
    {
      if i < |first| {
        assert all[i] == first[i];
        AddParsValues([], block, block.keys);
      } else {
        AddParsValues(first, doc, doc.keys);
        assert all[i].name !in Names(first) by {
          ParsNames(block, doc);
          LaterNameFresh(all, first, i);
        }
      }
    }
  }

  /** In a list without repeated names, a name after the prefix first is not one of first's. */
  lemma {:induction false} LaterNameFresh(all: seq<VendorPar>, first: seq<VendorPar>, i: nat)
    requires |first| <= i < |all| && all[..|first|] == first && Distinct(Names(all))
    ensures all[i].name !in Names(first)
  {
    DistinctIsPairwise(Names(all));
    assert Names(all)[i] == all[i].name;
    forall j | 0 <= j < |first| ensures Names(first)[j] != all[i].name {
      assert Names(first)[j] == all[j].name == Names(all)[j];
    }
  }

  /** One loop of getPars: each key not yet defined is added, with its value from store. */
  method AddRecords(store: Store, keys: seq<string>, defined0: set<string>, pars0: seq<VendorPar>)
    returns (defined: set<string>, pars: seq<VendorPar>)
    requires forall i | 0 <= i < |keys| :: keys[i] in store.values
    requires forall k :: k in defined0 <==> k in Names(pars0)
    ensures pars == AddPars(pars0, store, keys)
    ensures forall k :: k in defined <==> k in Names(pars)
  {
    defined, pars := defined0, pars0;
    for i := 0 to |keys|
      invariant pars == AddPars(pars0, store, keys[..i])
      invariant forall k :: k in defined <==> k in Names(pars)
    {
      assert keys[..i + 1][..i] == keys[..i];
      var key := keys[i];
      if key !in defined {
        defined := defined + {key};
        assert Names(pars + [VendorPar(key, store.values[key])]) == Names(pars) + [key];
        pars := pars + [VendorPar(key, store.values[key])];
      }
    }
    assert keys[..|keys|] == keys;
  }

  /** getPars: block-level records first, then document-level ones the block did not define. */
  method GetPars(block: Store, doc: Store) returns (pars: seq<VendorPar>)
    requires block.WellFormed() && doc.WellFormed()
    ensures pars == Pars(block, doc)
  {
    var defined: set<string> := {};
    assert Names([]) == [];
    defined, pars := AddRecords(block, block.keys, defined, []);
    defined, pars := AddRecords(doc, doc.keys, defined, pars);
  }
}
