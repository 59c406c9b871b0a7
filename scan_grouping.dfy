// The grouping arithmetic the two scan tables share: String.compareTo order
// and the TreeSet it gives, the value-to-index maps of makeGroupMap, the
// mixed-radix group number of getGroups, the I / D / S column typing, the
// `V.<n>` column numbering and relative times.

module ScanGrouping {
  import opened Wrappers
  import opened Text
  import Seqs

  // ----- String.compareTo order -----

  /** a sorts before b: a proper prefix of b, or smaller at the first difference. */
  predicate StrLess(a: string, b: string)
    decreases |a|
  {
    if |a| == 0 then |b| > 0
    else if |b| == 0 then false
    else if a[0] != b[0] then a[0] < b[0]
    else StrLess(a[1..], b[1..])
  }

  lemma {:induction false} StrLessIrreflexive(a: string)
    ensures !StrLess(a, a)
    decreases |a|
  {
    if |a| > 0 {
      StrLessIrreflexive(a[1..]);
    }
  }

  lemma {:induction false} StrLessTransitive(a: string, b: string, c: string)
    requires StrLess(a, b) && StrLess(b, c)
    ensures StrLess(a, c)
    decreases |a|
  {
    if |a| > 0 && a[0] == b[0] && b[0] == c[0] {
      StrLessTransitive(a[1..], b[1..], c[1..]);
    }
  }

  lemma {:induction false} StrLessTotal(a: string, b: string)
    requires a != b
    ensures StrLess(a, b) || StrLess(b, a)
    decreases |a|
  {
    if |a| > 0 && |b| > 0 && a[0] == b[0] {
      assert a == [a[0]] + a[1..] && b == [b[0]] + b[1..];
      StrLessTotal(a[1..], b[1..]);
    }
  }

  lemma {:induction false} StrLessAsymmetric(a: string, b: string)
    requires StrLess(a, b)
    ensures !StrLess(b, a)
  {
    if StrLess(b, a) {
      StrLessTransitive(a, b, a);
      StrLessIrreflexive(a);
    }
  }

  // ----- TreeSet<String> -----

  /** A TreeSet's iteration order: strictly ascending. */
  predicate Ascending(s: seq<string>)
  {
    forall i, j | 0 <= i < j < |s| :: StrLess(s[i], s[j])
  }

  /** TreeSet.add: x joins the ascending sequence unless it is already there. */
  function TreeAdd(s: seq<string>, x: string): seq<string>
  {
    if s == [] then [x]
    else if x == s[0] then s
    else if StrLess(x, s[0]) then [x] + s
    else [s[0]] + TreeAdd(s[1..], x)
  }

  /** A smaller head in front of an ascending sequence keeps it ascending. */
  lemma {:induction false} AscendingCons(x: string, s: seq<string>)
    requires Ascending(s) && (s == [] || StrLess(x, s[0]))
    ensures Ascending([x] + s)
  {
    var r := [x] + s;
    forall i, j | 0 <= i < j < |r| ensures StrLess(r[i], r[j]) {
      if i == 0 && j > 1 {
        StrLessTransitive(x, s[0], s[j - 1]);
      }
    }
  }

  lemma {:induction false} TreeAddProps(s: seq<string>, x: string)
    requires Ascending(s)
    ensures Ascending(TreeAdd(s, x))
    ensures forall y :: y in TreeAdd(s, x) <==> y in s || y == x
    ensures |TreeAdd(s, x)| > 0 && (TreeAdd(s, x)[0] == x || (s != [] && TreeAdd(s, x)[0] == s[0]))
    decreases |s|
  {
    if s != [] && x != s[0] {
      if StrLess(x, s[0]) {
        AscendingCons(x, s);
      } else {
        StrLessTotal(x, s[0]);
        assert Ascending(s[1..]) by {
          forall i, j | 0 <= i < j < |s[1..]| ensures StrLess(s[1..][i], s[1..][j]) {
            assert s[1..][i] == s[i + 1] && s[1..][j] == s[j + 1];
          }
        }
        TreeAddProps(s[1..], x);
        var t := TreeAdd(s[1..], x);
        if t[0] == x {
        } else {
          assert StrLess(s[0], s[1]);
        }
        AscendingCons(s[0], t);
        assert s == [s[0]] + s[1..];
      }
    }
  }

  /** TreeSet.remove: x leaves the sequence. */
  function TreeRemove(s: seq<string>, x: string): seq<string>
  {
    if s == [] then [] else if s[0] == x then TreeRemove(s[1..], x) else [s[0]] + TreeRemove(s[1..], x)
  }

  lemma {:induction false} TreeRemoveProps(s: seq<string>, x: string)
    requires Ascending(s)
    ensures Ascending(TreeRemove(s, x))
    ensures forall y :: y in TreeRemove(s, x) <==> y in s && y != x
    decreases |s|
  {
    if s != [] {
      assert Ascending(s[1..]) by {
        forall i, j | 0 <= i < j < |s[1..]| ensures StrLess(s[1..][i], s[1..][j]) {
          assert s[1..][i] == s[i + 1] && s[1..][j] == s[j + 1];
        }
      }
      TreeRemoveProps(s[1..], x);
      var t := TreeRemove(s[1..], x);
      assert s == [s[0]] + s[1..];
      if s[0] != x && t != [] {
        assert t[0] in s[1..];
        var k :| 0 <= k < |s[1..]| && s[1..][k] == t[0];
        assert StrLess(s[0], s[k + 1]);
      }
      if s[0] != x {
        AscendingCons(s[0], t);
      }
    }
  }

  /** The TreeSet after adding the values one by one. */
  function TreeOf(values: seq<string>): seq<string>
  {
    if values == [] then [] else TreeAdd(TreeOf(values[..|values| - 1]), values[|values| - 1])
  }

  /** The TreeSet holds each value once, in ascending order. */
  lemma {:induction false} TreeOfProps(values: seq<string>)
    ensures Ascending(TreeOf(values))
    ensures forall y :: y in TreeOf(values) <==> y in values
  {
    if values != [] {
      var n := |values| - 1;
      TreeOfProps(values[..n]);
      TreeAddProps(TreeOf(values[..n]), values[n]);
      assert values == values[..n] + [values[n]];
    }
  }

  lemma {:induction false} AscendingDistinct(s: seq<string>, i: nat, j: nat)
    requires Ascending(s) && i < |s| && j < |s| && i != j
    ensures s[i] != s[j]
  {
    if i < j {
      if s[i] == s[j] { StrLessIrreflexive(s[i]); }
    } else {
      if s[i] == s[j] { StrLessIrreflexive(s[i]); }
    }
  }

  // ----- makeGroupMap -----

  /** The map makeGroupMap builds from a TreeSet: each value to its position. */
  function IndexMap(t: seq<string>): map<string, int>
  {
    if t == [] then map[] else IndexMap(t[..|t| - 1])[t[|t| - 1] := |t| - 1]
  }

  /**
   * On an ascending sequence the map numbers the values 0..k-1 in sorted
   * order: its keys are the values, it has k of them, and a smaller value
   * gets a smaller number.
   */
  lemma {:induction false} IndexMapProps(t: seq<string>)
    requires Ascending(t)
    ensures forall y :: y in IndexMap(t) <==> y in t
    ensures |IndexMap(t)| == |t|
    ensures forall i | 0 <= i < |t| :: t[i] in IndexMap(t) && IndexMap(t)[t[i]] == i
  {
    assert Seqs.PairwiseDistinct(t) by {
      forall i, j | 0 <= i < j < |t| ensures t[i] != t[j] {
        AscendingDistinct(t, i, j);
      }
    }
    Seqs.DistinctIsPairwise(t);
    IndexMapDistinct(t);
  }

  /** On a sequence without repeats the map numbers each value by its position. */
  lemma {:induction false} IndexMapDistinct(t: seq<string>)
    requires Seqs.Distinct(t)
    ensures forall y :: y in IndexMap(t) <==> y in t
    ensures |IndexMap(t)| == |t|
    ensures forall i | 0 <= i < |t| :: t[i] in IndexMap(t) && IndexMap(t)[t[i]] == i
  {
    if t != [] {
      var n := |t| - 1;
      var p := t[..n];
      IndexMapDistinct(p);
      var m := IndexMap(p);
      assert IndexMap(t) == m[t[n] := n];
      assert t[n] !in m;
      assert t == p + [t[n]];
      forall i | 0 <= i < n ensures t[i] in m && m[t[i]] == i {
        assert p[i] == t[i];
      }
    }
  }

  /** The numbering respects the TreeSet order. */
  lemma {:induction false} IndexMapOrdered(t: seq<string>, a: string, b: string)
    requires Ascending(t) && a in t && b in t && StrLess(a, b)
    ensures a in IndexMap(t) && b in IndexMap(t) && IndexMap(t)[a] < IndexMap(t)[b]
  {
    IndexMapProps(t);
    var i :| 0 <= i < |t| && t[i] == a;
    var j :| 0 <= j < |t| && t[j] == b;
    if j <= i {
      if j == i {
        StrLessIrreflexive(a);
      } else {
        StrLessAsymmetric(a, b);
      }
    }
  }

  // ----- getGroups -----

  /** The running multiplier over the grouping maps: the product of the sizes of the non-empty ones. */
  function Radix(ms: seq<map<string, int>>): (r: nat)
    ensures r >= 1
  {
    if ms == [] then 1
    else
      var m := ms[|ms| - 1];
      Radix(ms[..|ms| - 1]) * (if |m| == 0 then 1 else |m|)
  }

  /**
   * An item's group: the mixed-radix number whose digit for each non-empty
   * grouping map is the index of the item's value in that map.
   */
  function GroupNumber(ms: seq<map<string, int>>, vs: seq<string>): int
    requires |vs| == |ms|
    requires forall j | 0 <= j < |ms| :: |ms[j]| > 0 ==> vs[j] in ms[j]
  {
    if ms == [] then 0
    else
      var n := |ms| - 1;
      GroupNumber(ms[..n], vs[..n]) + (if |ms[n]| == 0 then 0 else ms[n][vs[n]] * Radix(ms[..n]))
  }

  /** Each map numbers its keys below its size. */
  ghost predicate Digits(ms: seq<map<string, int>>)
  {
    forall j, v | 0 <= j < |ms| && v in ms[j] :: 0 <= ms[j][v] < |ms[j]|
  }

  /** Each map gives different keys different numbers. */
  ghost predicate OneToOne(ms: seq<map<string, int>>)
  {
    forall j, v, w | 0 <= j < |ms| && v in ms[j] && w in ms[j] && v != w :: ms[j][v] != ms[j][w]
  }

  /** The item's values lie in the non-empty maps. */
  predicate Covered(ms: seq<map<string, int>>, vs: seq<string>)
  {
    |vs| == |ms| && forall j | 0 <= j < |ms| :: |ms[j]| > 0 ==> vs[j] in ms[j]
  }

  lemma {:induction false} MulMono(a: int, b: int, r: int)
    requires 0 <= a < b && r >= 1
    ensures (a + 1) * r <= b * r
  {
  }

  /** A number low + d*R with low below R determines its low part and its digit. */
  lemma {:induction false} MixedDigitUnique(low1: int, d1: int, low2: int, d2: int, r: int)
    requires r >= 1 && 0 <= low1 < r && 0 <= low2 < r && 0 <= d1 && 0 <= d2
    requires low1 + d1 * r == low2 + d2 * r
    ensures d1 == d2 && low1 == low2
  {
    if d1 < d2 {
      MulMono(d1, d2, r);
    } else if d2 < d1 {
      MulMono(d2, d1, r);
    }
  }

  /** One more digit below its base keeps the number below the grown radix. */
  lemma {:induction false} DigitStep(low: int, d: int, k: int, r: int)
    requires r >= 1 && 0 <= low < r && 0 <= d < k
    ensures 0 <= low + d * r < r * k
  {
    MulMono(d, k, r);
  }

  /** The group number lies in [0, Radix). */
  lemma {:induction false} GroupNumberBounds(ms: seq<map<string, int>>, vs: seq<string>)
    requires Covered(ms, vs) && Digits(ms)
    ensures 0 <= GroupNumber(ms, vs) < Radix(ms)
  {
    if ms != [] {
      var n := |ms| - 1;
      var ms' := ms[..n];
      assert Digits(ms') by {
        forall j, v | 0 <= j < n && v in ms'[j] ensures 0 <= ms'[j][v] < |ms'[j]| {
          assert ms'[j] == ms[j];
        }
      }
      GroupNumberBounds(ms', vs[..n]);
      var low := GroupNumber(ms', vs[..n]);
      var r := Radix(ms');
      if |ms[n]| > 0 {
        var d := ms[n][vs[n]];
        DigitStep(low, d, |ms[n]|, r);
        assert GroupNumber(ms, vs) == low + d * r;
      }
    }
  }

  /**
   * Items agree on every grouping column exactly when their group numbers
   * agree (columns whose map is empty play no part).
   */
  lemma {:induction false} GroupNumberInjective(ms: seq<map<string, int>>, vs: seq<string>, ws: seq<string>)
    requires Covered(ms, vs) && Covered(ms, ws) && Digits(ms) && OneToOne(ms)
    ensures GroupNumber(ms, vs) == GroupNumber(ms, ws) <==>
            forall j | 0 <= j < |ms| :: |ms[j]| > 0 ==> vs[j] == ws[j]
  {
    if ms != [] {
      var n := |ms| - 1;
      var ms' := ms[..n];
      PrefixMaps(ms, n);
      GroupNumberInjective(ms', vs[..n], ws[..n]);
      GroupNumberBounds(ms', vs[..n]);
      GroupNumberBounds(ms', ws[..n]);
      var r := Radix(ms');
      var lv := GroupNumber(ms', vs[..n]);
      var lw := GroupNumber(ms', ws[..n]);
      var dv := if |ms[n]| == 0 then 0 else ms[n][vs[n]];
      var dw := if |ms[n]| == 0 then 0 else ms[n][ws[n]];
      assert GroupNumber(ms, vs) == lv + dv * r;
      assert GroupNumber(ms, ws) == lw + dw * r;
      assert dv == dw <==> (|ms[n]| > 0 ==> vs[n] == ws[n]);
      AgreeStep(ms, vs, ws);
      if GroupNumber(ms, vs) == GroupNumber(ms, ws) {
        MixedDigitUnique(lv, dv, lw, dw, r);
      }
    }
  }

  /** Items agree on every column whose map is non-empty. */
  predicate Agree(ms: seq<map<string, int>>, vs: seq<string>, ws: seq<string>)
    requires |vs| == |ms| && |ws| == |ms|
  {
    forall j | 0 <= j < |ms| :: |ms[j]| > 0 ==> vs[j] == ws[j]
  }

  /** Agreement on all columns is agreement on all but the last and on the last. */
  lemma {:induction false} AgreeStep(ms: seq<map<string, int>>, vs: seq<string>, ws: seq<string>)
    requires |vs| == |ms| && |ws| == |ms| && |ms| > 0
    ensures var n := |ms| - 1;
      Agree(ms, vs, ws) <==> Agree(ms[..n], vs[..n], ws[..n]) && (|ms[n]| > 0 ==> vs[n] == ws[n])
  {
    var n := |ms| - 1;
    if Agree(ms[..n], vs[..n], ws[..n]) && (|ms[n]| > 0 ==> vs[n] == ws[n]) {
      forall j | 0 <= j < |ms| && |ms[j]| > 0 ensures vs[j] == ws[j] {
        if j < n {
          assert ms[..n][j] == ms[j] && vs[..n][j] == vs[j] && ws[..n][j] == ws[j];
        }
      }
    }
    if Agree(ms, vs, ws) {
      forall j | 0 <= j < n && |ms[..n][j]| > 0 ensures vs[..n][j] == ws[..n][j] {
        assert ms[..n][j] == ms[j] && vs[..n][j] == vs[j] && ws[..n][j] == ws[j];
      }
    }
  }

  /** The maps of the first n columns keep both properties. */
  lemma {:induction false} PrefixMaps(ms: seq<map<string, int>>, n: nat)
    requires Digits(ms) && OneToOne(ms) && n <= |ms|
    ensures Digits(ms[..n]) && OneToOne(ms[..n])
  {
    var ms' := ms[..n];
    forall j, v | 0 <= j < n && v in ms'[j] ensures 0 <= ms'[j][v] < |ms'[j]| {
      assert ms'[j] == ms[j];
    }
    forall j, v, w | 0 <= j < n && v in ms'[j] && w in ms'[j] && v != w ensures ms'[j][v] != ms'[j][w] {
      assert ms'[j] == ms[j];
    }
  }

  // ----- column typing -----

  /** A field Integer.parseInt accepts once trimmed. */
  predicate IntField(v: string) { ParseInt(JavaTrim(v)).Some? }

  /** A field Double.parseDouble accepts once trimmed. */
  predicate JavaDoubleField(v: string) { IsJavaDouble(JavaTrim(v)) }

  /** A field Integer.parseInt or Double.parseDouble accepts once trimmed. */
  predicate NumField(v: string) { IntField(v) || JavaDoubleField(v) }

  /** Every value of the column satisfies p. */
  predicate AllHold(col: seq<string>, p: string -> bool) { forall k | 0 <= k < |col| :: p(col[k]) }

  predicate AllInt(col: seq<string>) { AllHold(col, IntField) }

  predicate AllNum(col: seq<string>) { AllHold(col, NumField) }

  /** The values of column c over the rows that reach it. */
  function Column(rows: seq<seq<string>>, c: nat): seq<string>
  {
    if rows == [] then []
    else
      var n := |rows| - 1;
      Column(rows[..n], c) + (if c < |rows[n]| then [rows[n][c]] else [])
  }

  /** A column's type: "I" when every value is an integer, else "D" when every value is a number, else "S". */
  function TypeOf(col: seq<string>): string
  {
    TypeCode(AllInt(col), AllNum(col))
  }

  function TypeCode(allInt: bool, allNum: bool): string
  {
    if allInt then "I" else if allNum then "D" else "S"
  }

  /** A row with more fields than there are headers. */
  predicate TooLong(rows: seq<seq<string>>, nHeaders: nat)
  {
    exists i | 0 <= i < |rows| :: |rows[i]| > nHeaders
  }

  function TypesOf(nHeaders: nat, rows: seq<seq<string>>): (r: seq<string>)
    ensures |r| == nHeaders
  {
    seq(nHeaders, c requires 0 <= c < nHeaders => TypeOf(Column(rows, c)))
  }

  /** "D" means every value parses as a double: integers are doubles too. */
  lemma {:induction false} DoubleColumn(col: seq<string>)
    ensures TypeOf(col) != "S" <==> forall k | 0 <= k < |col| :: IsJavaDouble(JavaTrim(col[k]))
    ensures TypeOf(col) == "I" ==> AllNum(col)
  {
    forall k | 0 <= k < |col| && IntField(col[k]) ensures IsJavaDouble(JavaTrim(col[k])) {
      IntIsDouble(JavaTrim(col[k]));
    }
  }

  lemma {:induction false} ColumnStep(rows: seq<seq<string>>, i: nat, c: nat, p: string -> bool)
    requires i < |rows|
    ensures AllHold(Column(rows[..i + 1], c), p) <==> AllHold(Column(rows[..i], c), p) && (c < |rows[i]| ==> p(rows[i][c]))
  {
    assert rows[..i + 1][..i] == rows[..i];
    var prev := Column(rows[..i], c);
    if c < |rows[i]| {
      var col := prev + [rows[i][c]];
      assert Column(rows[..i + 1], c) == col;
      assert col[|prev|] == rows[i][c];
      assert forall k | 0 <= k < |prev| :: col[k] == prev[k];
    } else {
      assert Column(rows[..i + 1], c) == prev;
    }
  }

  /**
   * One row of loadScanTable's typing loop: a field that is no integer
   * (isInt) marks its column as not integer, and one that is no number
   * either (isNum) as not double.
   */
  method MarkRow(row: seq<string>, notInteger: array<bool>, notDouble: array<bool>,
                 isInt: string -> bool, isNum: string -> bool)
    requires |row| <= notInteger.Length == notDouble.Length && notInteger != notDouble
    modifies notInteger, notDouble
    ensures forall c | 0 <= c < notInteger.Length ::
              notInteger[c] == (old(notInteger[c]) || (c < |row| && !isInt(row[c])))
    ensures forall c | 0 <= c < notDouble.Length ::
              notDouble[c] == (old(notDouble[c]) || (c < |row| && !isInt(row[c]) && !isNum(row[c])))
  {
    for f := 0 to |row|
      invariant forall c | 0 <= c < notInteger.Length ::
                  notInteger[c] == (old(notInteger[c]) || (c < f && !isInt(row[c])))
      invariant forall c | 0 <= c < notDouble.Length ::
                  notDouble[c] == (old(notDouble[c]) || (c < f && !isInt(row[c]) && !isNum(row[c])))
    {
      if !isInt(row[f]) {
        notInteger[f] := true;
        if !isNum(row[f]) {
          notDouble[f] := true;
        }
      }
    }
  }

  /** The closing loop of the typing pass: a column's code from its two flags. */
  method TypeCodes(notInteger: array<bool>, notDouble: array<bool>) returns (types: seq<string>)
    requires notInteger.Length == notDouble.Length
    ensures |types| == notInteger.Length
    ensures forall k | 0 <= k < |types| :: types[k] == TypeCode(!notInteger[k], !notDouble[k])
  {
    types := [];
    for c := 0 to notInteger.Length
      invariant |types| == c
      invariant forall k | 0 <= k < c :: types[k] == TypeCode(!notInteger[k], !notDouble[k])
    {
      types := types + [if !notInteger[c] then "I" else if !notDouble[c] then "D" else "S"];
    }
  }

  /** The exception a field past the last header raises. */
  function FieldOutOfBounds(n: nat): Error
  {
    IndexOutOfBounds("Index " + NatToString(n) + " out of bounds for length " + NatToString(n))
  }

  /**
   * The row loop of loadScanTable's typing pass, over any field tests
   * isInt and isNum (isNum accepting whatever isInt accepts): ok is false
   * when a row has more fields than there are headers, and otherwise each
   * column's flags say whether some value under it fails the test.
   */
  method ColumnFlags(nHeaders: nat, rows: seq<seq<string>>, isInt: string -> bool, isNum: string -> bool)
    returns (ok: bool, notInteger: array<bool>, notDouble: array<bool>)
    requires forall v :: isInt(v) ==> isNum(v)
    ensures ok <==> !TooLong(rows, nHeaders)
    ensures notInteger.Length == notDouble.Length == nHeaders
    ensures ok ==> forall c | 0 <= c < nHeaders ::
                     notInteger[c] == !AllHold(Column(rows, c), isInt) && notDouble[c] == !AllHold(Column(rows, c), isNum)
  {
    notInteger := new bool[nHeaders](_ => false);
    notDouble := new bool[nHeaders](_ => false);
    for i := 0 to |rows|
      modifies notInteger, notDouble
      invariant forall k | 0 <= k < i :: |rows[k]| <= nHeaders
      invariant forall c | 0 <= c < nHeaders :: notInteger[c] == !AllHold(Column(rows[..i], c), isInt)
      invariant forall c | 0 <= c < nHeaders :: notDouble[c] == !AllHold(Column(rows[..i], c), isNum)
    {
      if |rows[i]| > nHeaders {
        assert TooLong(rows, nHeaders) by {
          assert |rows[i]| > nHeaders;
        }
        return false, notInteger, notDouble;
      }
      MarkRow(rows[i], notInteger, notDouble, isInt, isNum);
      forall c | 0 <= c < nHeaders
        ensures notInteger[c] == !AllHold(Column(rows[..i + 1], c), isInt)
        ensures notDouble[c] == !AllHold(Column(rows[..i + 1], c), isNum)
      {
        ColumnStep(rows, i, c, isInt);
        ColumnStep(rows, i, c, isNum);
      }
    }
    assert rows[..|rows|] == rows;
    ok := true;
  }

  /**
   * The typing part of loadScanTable: each header's column is typed from
   * the values under it; a row with more fields than headers stops the load.
   */
  method InferColumnTypes(nHeaders: nat, rows: seq<seq<string>>) returns (r: Result<seq<string>>)
    ensures r.Err? <==> TooLong(rows, nHeaders)
    ensures r.Ok? ==> r.value == TypesOf(nHeaders, rows)
  {
    var ok, notInteger, notDouble := ColumnFlags(nHeaders, rows, IntField, NumField);
    if !ok {
      return Err(FieldOutOfBounds(nHeaders));
    }
    var types := TypeCodes(notInteger, notDouble);
    assert forall k | 0 <= k < nHeaders :: types[k] == TypeOf(Column(rows, k));
    return Ok(types);
  }

  /** The types of the standard columns, which override the inferred ones. */
  const ForcedTypes: map<string, string> :=
    map["path" := "S", "sequence" := "S", "ndim" := "I", "row" := "I", "dataset" := "S", "etime" := "I"]

  /** columnTypes after the typing loop: each header with its type (a later repeat wins), then the standard columns forced. */
  function TypeMap(headers: seq<string>, types: seq<string>): (m: map<string, string>)
    requires |types| == |headers|
    ensures forall h :: h in m <==> h in headers || h in ForcedTypes
    ensures forall h | h in ForcedTypes :: m[h] == ForcedTypes[h]
  {
    Headed(headers, types) + ForcedTypes
  }

  function Headed(headers: seq<string>, types: seq<string>): (m: map<string, string>)
    requires |types| == |headers|
    ensures forall h :: h in m <==> h in headers
  {
    if headers == [] then map[]
    else
      var n := |headers| - 1;
      assert headers == headers[..n] + [headers[n]];
      Headed(headers[..n], types[..n])[headers[n] := types[n]]
  }

  /** A header's type is the one inferred at its last occurrence. */
  lemma {:induction false} HeadedLastWins(headers: seq<string>, types: seq<string>, i: nat)
    requires |types| == |headers| && i < |headers| && headers[i] !in headers[i + 1..]
    ensures Headed(headers, types)[headers[i]] == types[i]
    decreases |headers|
  {
    var n := |headers| - 1;
    if i < n {
      assert headers[n] in headers[i + 1..];
      assert headers[..n][i + 1..] == headers[i + 1..n];
      assert headers[..n][i] == headers[i] && types[..n][i] == types[i];
      HeadedLastWins(headers[..n], types[..n], i);
    }
  }

  /**
   * The type recorded for a header: a standard column's fixed type, else
   * the type of the column at the header's last occurrence.
   */
  lemma {:induction false} TypedHeader(old_: map<string, string>, headers: seq<string>, rows: seq<seq<string>>, i: nat)
    requires i < |headers| && headers[i] !in headers[i + 1..]
    ensures headers[i] in old_ + TypeMap(headers, TypesOf(|headers|, rows))
    ensures (old_ + TypeMap(headers, TypesOf(|headers|, rows)))[headers[i]] ==
            if headers[i] in ForcedTypes then ForcedTypes[headers[i]] else TypeOf(Column(rows, i))
  {
    var types := TypesOf(|headers|, rows);
    HeadedLastWins(headers, types, i);
  }

  lemma {:induction false} HeadedStep(start: map<string, string>, headers: seq<string>, t: seq<string>, i: nat)
    requires |t| == |headers| && i < |headers|
    ensures (start + Headed(headers[..i], t[..i]))[headers[i] := t[i]] == start + Headed(headers[..i + 1], t[..i + 1])
  {
    assert headers[..i + 1][..i] == headers[..i] && t[..i + 1][..i] == t[..i];
    assert headers[..i + 1][i] == headers[i] && t[..i + 1][i] == t[i];
  }

  lemma {:induction false} ForcedLast(start: map<string, string>, h: map<string, string>)
    ensures (start + h)["path" := "S"]["sequence" := "S"]["ndim" := "I"]["row" := "I"]["dataset" := "S"]["etime" := "I"]
            == start + (h + ForcedTypes)
  {
  }

  /**
   * The typing part of loadScanTable: every header gets its column's
   * type, then the standard columns their fixed types, over the types
   * already recorded; a row longer than the header line throws before any
   * type is recorded.
   */
  method RecordTypes(start: map<string, string>, headers: seq<string>, rows: seq<seq<string>>)
    returns (r: Result<map<string, string>>)
    ensures r.Err? <==> TooLong(rows, |headers|)
    ensures r.Ok? ==> r.value == start + TypeMap(headers, TypesOf(|headers|, rows))
  {
    var types := InferColumnTypes(|headers|, rows);
    if types.Err? {
      return Err(types.error);
    }
    var t := types.value;
    var columnTypes := start;
    for i := 0 to |headers|
      invariant columnTypes == start + Headed(headers[..i], t[..i])
    {
      HeadedStep(start, headers, t, i);
      columnTypes := columnTypes[headers[i] := t[i]];
    }
    assert headers[..|headers|] == headers && t[..|t|] == t;
    columnTypes := columnTypes["path" := "S"]["sequence" := "S"]["ndim" := "I"];
    columnTypes := columnTypes["row" := "I"]["dataset" := "S"]["etime" := "I"];
    ForcedLast(start, Headed(headers, t));
    return Ok(columnTypes);
  }

  // ----- where loadScanTable's row loop stops -----

  /** How loadScanTable's row loop ends early: an exception, or a plain return after a warning. */
  datatype RowStop = Thrown(error: Error) | Returned

  /**
   * What the two scan tables do differently in loadScanTable's row loop
   * (the key a header is stored under, the test for a blank path) and what
   * it consults outside the table (whether there is no scan directory,
   * which files can be read).
   */
  datatype LoadRules = LoadRules(key: string -> string, blank: string -> bool, noScanDir: bool,
                                 readable: string -> bool)

  /** Long.parseLong: a decimal integer within the 64-bit range. */
  function ParseLong(s: string): (r: Option<int>)
    ensures r.Some? ==> -LongMax - 1 <= r.value <= LongMax
    ensures ParseInt(s).Some? ==> r == ParseInt(s)
  {
    var body := Unsigned(s);
    if |body| == 0 || !AllDigits(body) then None
    else
      var v := if s[0] == '-' then -(DigitsValue(body) as int) else DigitsValue(body);
      if -LongMax - 1 <= v <= LongMax then Some(v) else None
  }

  /** fieldMap after a row: each trimmed field under its header's key, a later field winning. */
  function PutFields(m: map<string, string>, headers: seq<string>, row: seq<string>, key: string -> string)
    : (r: map<string, string>)
    requires |row| <= |headers|
    ensures forall k | k in m :: k in r
  {
    if row == [] then m
    else
      var n := |row| - 1;
      PutFields(m, headers, row[..n], key)[key(headers[n]) := JavaTrim(row[n])]
  }

  /** Every standard column has a field. */
  predicate HasAll(m: map<string, string>)
  {
    "path" in m && "sequence" in m && "row" in m && "etime" in m && "ndim" in m
  }

  /**
   * The first standard field whose parse throws, in the loop's order:
   * row and ndim by Integer.parseInt, etime by Long.parseLong.
   */
  function BadStandard(m: map<string, string>): (r: Option<Error>)
    ensures r.Some? ==> r.value.NumberFormat?
    ensures r.None? <==> ("row" in m ==> ParseInt(m["row"]).Some?) && ("etime" in m ==> ParseLong(m["etime"]).Some?) &&
                         ("ndim" in m ==> ParseInt(m["ndim"]).Some?)
  {
    if "row" in m && ParseInt(m["row"]).None? then Some(NumberFormat(m["row"]))
    else if "etime" in m && ParseLong(m["etime"]).None? then Some(NumberFormat(m["etime"]))
    else if "ndim" in m && ParseInt(m["ndim"]).None? then Some(NumberFormat(m["ndim"]))
    else None
  }

  /**
   * Whether loadScanTable's row loop stops at a row, given fieldMap before
   * it: a field past the last header throws; a standard field that does not
   * parse throws; and when a standard column has no field, a blank path, no
   * scan directory or a file that cannot be read ends the load.
   */
  function RowStopAt(m: map<string, string>, headers: seq<string>, row: seq<string>, rules: LoadRules)
    : (r: Option<RowStop>)
    ensures r.None? ==> |row| <= |headers|
    ensures |row| > |headers| ==> r == Some(Thrown(FieldOutOfBounds(|headers|)))
  {
    if |row| > |headers| then Some(Thrown(FieldOutOfBounds(|headers|)))
    else
      var fields := PutFields(m, headers, row, rules.key);
      if BadStandard(fields).Some? then Some(Thrown(BadStandard(fields).value))
      else if HasAll(fields) then None
      else if "path" !in fields || rules.blank(fields["path"]) then Some(Returned)
      else if rules.noScanDir || !rules.readable(fields["path"]) then Some(Returned)
      else None
  }

  /** Where the row loop stops, fieldMap carrying over from row to row; none when every row loads. */
  function LoadStop(m: map<string, string>, headers: seq<string>, rows: seq<seq<string>>, rules: LoadRules)
    : Option<RowStop>
    decreases |rows|
  {
    if rows == [] then None
    else
      var s := RowStopAt(m, headers, rows[0], rules);
      if s.Some? then s else LoadStop(PutFields(m, headers, rows[0], rules.key), headers, rows[1..], rules)
  }

  /** A row longer than the header line always stops the load, there or at an earlier row. */
  lemma {:induction false} LongRowStops(m: map<string, string>, headers: seq<string>, rows: seq<seq<string>>,
                                        rules: LoadRules)
    requires TooLong(rows, |headers|)
    ensures LoadStop(m, headers, rows, rules).Some?
    decreases |rows|
  {
    var i :| 0 <= i < |rows| && |rows[i]| > |headers|;
    if i > 0 && RowStopAt(m, headers, rows[0], rules).None? {
      assert rows[1..][i - 1] == rows[i];
      LongRowStops(PutFields(m, headers, rows[0], rules.key), headers, rows[1..], rules);
    }
  }

  /**
   * A row whose standard fields all parse and whose path is readable loads,
   * and the load goes on to the next row.
   */
  lemma {:induction false} GoodRowLoads(m: map<string, string>, headers: seq<string>, row: seq<string>,
                                        rest: seq<seq<string>>, rules: LoadRules)
    requires |row| <= |headers|
    requires var fields := PutFields(m, headers, row, rules.key);
             BadStandard(fields).None? && "path" in fields && !rules.blank(fields["path"]) &&
             !rules.noScanDir && rules.readable(fields["path"])
    ensures LoadStop(m, headers, [row] + rest, rules) == LoadStop(PutFields(m, headers, row, rules.key), headers, rest, rules)
  {
    assert ([row] + rest)[0] == row && ([row] + rest)[1..] == rest;
  }

  /** fieldMap after a two-field row under two headers. */
  lemma {:induction false} PutTwoFields(m: map<string, string>, h1: string, h2: string, v1: string, v2: string,
                                        key: string -> string)
    ensures PutFields(m, [h1, h2], [v1, v2], key) == m[key(h1) := JavaTrim(v1)][key(h2) := JavaTrim(v2)]
  {
    var headers, row := [h1, h2], [v1, v2];
    assert [v1][..0] == [];
    assert PutFields(m, headers, [v1], key) == m[key(h1) := JavaTrim(v1)];
    assert row[..1] == [v1];
  }

  /** The single-row load stops as the row does. */
  lemma {:induction false} OneRowStop(headers: seq<string>, row: seq<string>, rules: LoadRules)
    ensures LoadStop(map[], headers, [row], rules) == RowStopAt(map[], headers, row, rules)
  {
    var rows := [row];
    assert rows[0] == row && rows[1..] == [];
  }

  /** With no row or etime field, an unparsable ndim field is the error. */
  lemma {:induction false} NDimOnlyBad(m: map<string, string>)
    requires "row" !in m && "etime" !in m && "ndim" in m && ParseInt(m["ndim"]).None?
    ensures BadStandard(m) == Some(NumberFormat(m["ndim"]))
  {
  }

  /** A map holding only path and ndim has no row or etime field. */
  lemma {:induction false} PathNDimKeys(path: string, ndim: string)
    ensures "row" !in map["path" := path, "ndim" := ndim] && "etime" !in map["path" := path, "ndim" := ndim]
  {
    assert "row"[0] != "path"[0] && "row"[0] != "ndim"[0];
    assert "etime"[0] != "path"[0] && "etime"[0] != "ndim"[0];
  }

  /** Integer.parseInt refuses text that starts with a letter. */
  lemma {:induction false} LetterDoesNotParse(s: string)
    requires |s| > 0 && IsLetter(s[0])
    ensures ParseInt(s).None?
  {
    assert Unsigned(s) == s;
    assert !IsDigit(s[0]);
  }

  /**
   * A header line `path`, `ndim` and a row `a.fid`, `x`: Integer.parseInt
   * of the ndim field throws before any type is recorded.
   */
  lemma {:induction false} UnparsableNDimStops(rules: LoadRules)
    requires rules.key("path") == "path" && rules.key("ndim") == "ndim"
    ensures LoadStop(map[], ["path", "ndim"], [["a.fid", "x"]], rules) == Some(Thrown(NumberFormat("x")))
  {
    var fields := map["path" := "a.fid", "ndim" := "x"];
    assert PutFields(map[], ["path", "ndim"], ["a.fid", "x"], rules.key) == fields by {
      TrimUnchanged("x", IsJavaSpace);
      TrimUnchanged("a.fid", IsJavaSpace);
      PutTwoFields(map[], "path", "ndim", "a.fid", "x", rules.key);
    }
    LetterDoesNotParse("x");
    PathNDimKeys("a.fid", "x");
    NDimOnlyBad(fields);
    OneRowStop(["path", "ndim"], ["a.fid", "x"], rules);
  }

  /**
   * loadScanTable's row loop as far as it decides whether the load stops:
   * fieldMap is carried from row to row and the first stop ends the loop.
   */
  method ScanRows(headers: seq<string>, rows: seq<seq<string>>, rules: LoadRules) returns (stop: Option<RowStop>)
    ensures stop == LoadStop(map[], headers, rows, rules)
  {
    var fieldMap := map[];
    assert rows[0..] == rows;
    for i := 0 to |rows|
      invariant LoadStop(fieldMap, headers, rows[i..], rules) == LoadStop(map[], headers, rows, rules)
    {
      assert rows[i..][0] == rows[i] && rows[i..][1..] == rows[i + 1..];
      var s := RowStopAt(fieldMap, headers, rows[i], rules);
      if s.Some? {
        return s;
      }
      fieldMap := PutFields(fieldMap, headers, rows[i], rules.key);
    }
    assert rows[|rows|..] == [];
    return None;
  }

  /**
   * The typing part of loadScanTable with its early exits: when the row
   * loop stops, no type is recorded; otherwise every header gets its
   * column's type, then the standard columns their fixed types.
   */
  method LoadTypes(start: map<string, string>, headers: seq<string>, rows: seq<seq<string>>, rules: LoadRules)
    returns (stop: Option<RowStop>, types: map<string, string>)
    ensures stop == LoadStop(map[], headers, rows, rules)
    ensures stop.Some? ==> types == start
    ensures stop.None? ==> !TooLong(rows, |headers|) && types == start + TypeMap(headers, TypesOf(|headers|, rows))
  {
    stop := ScanRows(headers, rows, rules);
    if stop.Some? {
      return stop, start;
    }
    if TooLong(rows, |headers|) {
      LongRowStops(map[], headers, rows, rules);
    }
    var r := RecordTypes(start, headers, rows);
    types := r.value;
  }

  // ----- column numbering -----

  /** A column type key of the `V.<n>:...` family. */
  predicate VKey(k: string) { StartsWith(k, "V.") }

  /** The number of a `V.<n>:` key: the text between "V." and the first ':'. */
  function VNumber(k: string): Option<int>
    requires VKey(k) && ':' in k
  {
    var colon := FindChar(k, ':');
    if colon < 2 then None else ParseInt(k[2..colon])
  }

  /** m is one below the next free number: -1 or the largest number among the keys, and no key's number exceeds it. */
  ghost predicate IsTop(keys: set<string>, m: int)
  {
    (m == -1 || exists k | k in keys && VKey(k) && ':' in k :: VNumber(k) == Some(m)) &&
    m >= -1 &&
    forall k | k in keys && VKey(k) && ':' in k && VNumber(k).Some? :: VNumber(k).value <= m
  }

  /** A `V.` key without ':', whose substring(2, -1) throws. */
  predicate HasBadVKey(keys: set<string>)
  {
    exists k | k in keys :: VKey(k) && ':' !in k
  }

  /**
   * getNextColumnName's scan of the column types: the next `V.<n>` number
   * is one more than the largest number found (so 0 when none is found),
   * in int arithmetic, so Integer.MAX_VALUE is followed by Integer.MIN_VALUE;
   * a `V.` key without ':' throws.
   */
  method NextColumnNumber(keys: set<string>) returns (r: Result<int>)
    ensures r.Err? <==> HasBadVKey(keys)
    ensures r.Ok? ==> exists m :: IsTop(keys, m) && r.value == Wrap32(m + 1)
  {
    var maxColumn := -1;
    var rest := keys;
    while rest != {}
      invariant rest <= keys
      invariant !HasBadVKey(keys - rest)
      invariant IsTop(keys - rest, maxColumn)
      decreases |rest|
    {
      var k :| k in rest;
      if VKey(k) {
        if ':' !in k {
          assert VKey(k) && ':' !in k && k in keys;
          return Err(IndexOutOfBounds("begin 2, end -1, length " + NatToString(|k|)));
        }
        var num := VNumber(k);
        if num.Some? && num.value > maxColumn {
          maxColumn := num.value;
        }
      }
      rest := rest - {k};
    }
    assert keys - rest == keys;
    return Ok(Wrap32(maxColumn + 1));
  }

  /** The name getNextColumnName makes from a number. */
  function VName(n: int): string
  {
    "V." + IntToString(n)
  }

  // ----- table items -----

  /** A row of the scan table (FileTableItem): its standard fields, its extra columns and its group. */
  datatype FileItem = FileItem(path: string, sequence: string, nDim: int, date: int, row: int,
                               dataset: string, extras: map<string, string>, group: int)

  /** An item's value in an extra column, "" when it has none. */
  function Extra(item: FileItem, name: string): string
  {
    if name in item.extras then item.extras[name] else ""
  }

  /** A column's values, one per item in table order. */
  function ValuesOf(items: seq<FileItem>, name: string): seq<string>
  {
    seq(|items|, i requires 0 <= i < |items| => Extra(items[i], name))
  }

  /** An item's values in the grouping columns, in groupNames order. */
  function KeyOf(item: FileItem, names: seq<string>): seq<string>
  {
    seq(|names|, j requires 0 <= j < |names| => Extra(item, names[j]))
  }

  // ----- makeGroupMap -----

  /** makeGroupMap's map for one grouping column: its TreeSet of values, each numbered by its position. */
  function GroupMapOf(items: seq<FileItem>, name: string): map<string, int>
  {
    IndexMap(TreeOf(ValuesOf(items, name)))
  }

  /** The maps of the grouping columns, in groupNames order. */
  function TableMaps(items: seq<FileItem>, names: seq<string>): seq<map<string, int>>
  {
    seq(|names|, j requires 0 <= j < |names| => GroupMapOf(items, names[j]))
  }

  /** groupMap as makeGroupMap leaves it: exactly the grouping columns, each with its map. */
  ghost predicate MapsFor(gm: map<string, map<string, int>>, names: seq<string>, items: seq<FileItem>)
  {
    (forall g :: g in gm <==> g in names) && forall g | g in gm :: gm[g] == GroupMapOf(items, g)
  }

  lemma {:induction false} AscendingPrefix(t: seq<string>, k: nat)
    requires Ascending(t) && k <= |t|
    ensures Ascending(t[..k])
  {
    forall i, j | 0 <= i < j < k ensures StrLess(t[..k][i], t[..k][j]) {
      assert t[..k][i] == t[i] && t[..k][j] == t[j];
    }
  }

  /**
   * A column's map holds exactly the column's values, numbered 0..k-1 so
   * that a smaller value gets a smaller number (and different values
   * different numbers); it is empty only for an empty table.
   */
  lemma {:induction false} GroupMapNumbering(items: seq<FileItem>, name: string)
    ensures forall v :: v in GroupMapOf(items, name) <==> exists i | 0 <= i < |items| :: Extra(items[i], name) == v
    ensures forall v | v in GroupMapOf(items, name) :: 0 <= GroupMapOf(items, name)[v] < |GroupMapOf(items, name)|
    ensures forall v, w | v in GroupMapOf(items, name) && w in GroupMapOf(items, name) && StrLess(v, w) ::
              GroupMapOf(items, name)[v] < GroupMapOf(items, name)[w]
    ensures forall v, w | v in GroupMapOf(items, name) && w in GroupMapOf(items, name) && v != w ::
              GroupMapOf(items, name)[v] != GroupMapOf(items, name)[w]
    ensures |GroupMapOf(items, name)| > 0 <==> |items| > 0
  {
    var vals := ValuesOf(items, name);
    var t := TreeOf(vals);
    var m := GroupMapOf(items, name);
    TreeOfProps(vals);
    IndexMapProps(t);
    forall v ensures v in m <==> exists i | 0 <= i < |items| :: Extra(items[i], name) == v {
      if v in m {
        var i :| 0 <= i < |vals| && vals[i] == v;
        assert Extra(items[i], name) == v;
      }
      if exists i | 0 <= i < |items| :: Extra(items[i], name) == v {
        var i :| 0 <= i < |items| && Extra(items[i], name) == v;
        assert vals[i] == v;
      }
    }
    forall v | v in m ensures 0 <= m[v] < |m| {
      var i :| 0 <= i < |t| && t[i] == v;
    }
    forall v, w | v in m && w in m && StrLess(v, w) ensures m[v] < m[w] {
      IndexMapOrdered(t, v, w);
    }
    forall v, w | v in m && w in m && v != w ensures m[v] != m[w] {
      StrLessTotal(v, w);
      if StrLess(v, w) { IndexMapOrdered(t, v, w); } else { IndexMapOrdered(t, w, v); }
    }
    if |items| > 0 {
      assert vals[0] in t;
    }
  }

  /** Every item's values lie in the maps, which number their keys below their size and one-to-one. */
  lemma {:induction false} TableMapsCover(items: seq<FileItem>, names: seq<string>, i: nat)
    requires i < |items|
    ensures Covered(TableMaps(items, names), KeyOf(items[i], names))
    ensures Digits(TableMaps(items, names)) && OneToOne(TableMaps(items, names))
    ensures forall j | 0 <= j < |names| :: |TableMaps(items, names)[j]| > 0
  {
    var ms := TableMaps(items, names);
    forall j | 0 <= j < |names|
      ensures KeyOf(items[i], names)[j] in ms[j] && |ms[j]| > 0
      ensures forall v | v in ms[j] :: 0 <= ms[j][v] < |ms[j]|
      ensures forall v, w | v in ms[j] && w in ms[j] && v != w :: ms[j][v] != ms[j][w]
    {
      GroupMapNumbering(items, names[j]);
    }
  }

  /** makeGroupMap's work for one column: the TreeSet of the column's values, then each value numbered by map.size(). */
  method NumberValues(items: seq<FileItem>, name: string) returns (m: map<string, int>)
    ensures m == GroupMapOf(items, name)
  {
    ghost var vals := ValuesOf(items, name);
    var tree: seq<string> := [];
    for i := 0 to |items|
      invariant tree == TreeOf(vals[..i])
    {
      assert vals[..i + 1][..i] == vals[..i];
      tree := TreeAdd(tree, Extra(items[i], name));
    }
    assert vals[..|items|] == vals;
    TreeOfProps(vals);
    m := map[];
    for k := 0 to |tree|
      invariant m == IndexMap(tree[..k]) && |m| == k
    {
      assert tree[..k + 1][..k] == tree[..k];
      AscendingPrefix(tree, k + 1);
      IndexMapProps(tree[..k + 1]);
      m := m[tree[k] := |m|];
    }
    assert tree[..|tree|] == tree;
  }

  /** makeGroupMap: a fresh groupMap with one numbering per grouping column. */
  method BuildGroupMaps(items: seq<FileItem>, names: seq<string>) returns (gm: map<string, map<string, int>>)
    ensures MapsFor(gm, names, items)
  {
    gm := map[];
    for j := 0 to |names|
      invariant forall g :: g in gm <==> g in names[..j]
      invariant forall g | g in gm :: gm[g] == GroupMapOf(items, g)
    {
      assert names[..j + 1] == names[..j] + [names[j]];
      var m := NumberValues(items, names[j]);
      gm := gm[names[j] := m];
    }
    assert names[..|names|] == names;
  }

  // ----- getGroups -----

  /**
   * The group getGroups gives the i-th item: the mixed-radix number as the
   * program's int arithmetic leaves it, wrapped to 32 bits.
   */
  function GroupOf(items: seq<FileItem>, names: seq<string>, i: nat): (g: int)
    requires i < |items|
    ensures IntMin <= g <= IntMax
  {
    TableMapsCover(items, names, i);
    Wrap32(GroupNumber(TableMaps(items, names), KeyOf(items[i], names)))
  }

  /**
   * While the product of the columns' value counts fits in an int, items
   * get the same group exactly when they agree on every grouping column;
   * groups lie in [0, that product), and with no grouping column every
   * group is 0.
   */
  lemma {:induction false} GroupsSeparate(items: seq<FileItem>, names: seq<string>, i: nat, k: nat)
    requires i < |items| && k < |items|
    requires Radix(TableMaps(items, names)) <= IntMax + 1
    ensures GroupOf(items, names, i) == GroupOf(items, names, k) <==> KeyOf(items[i], names) == KeyOf(items[k], names)
    ensures 0 <= GroupOf(items, names, i) < Radix(TableMaps(items, names))
    ensures names == [] ==> GroupOf(items, names, i) == 0
  {
    var ms := TableMaps(items, names);
    var vs := KeyOf(items[i], names);
    var ws := KeyOf(items[k], names);
    TableMapsCover(items, names, i);
    TableMapsCover(items, names, k);
    GroupNumberInjective(ms, vs, ws);
    GroupNumberBounds(ms, vs);
    GroupNumberBounds(ms, ws);
    if forall j | 0 <= j < |ms| :: |ms[j]| > 0 ==> vs[j] == ws[j] {
      assert vs == ws;
    }
  }

  /** One more grouping column: its digit times the running multiplier is added, and the multiplier grows by its size. */
  lemma {:induction false} GroupNumberStep(ms: seq<map<string, int>>, vs: seq<string>, j: nat)
    requires Covered(ms, vs) && j < |ms|
    ensures Covered(ms[..j], vs[..j]) && Covered(ms[..j + 1], vs[..j + 1])
    ensures GroupNumber(ms[..j + 1], vs[..j + 1]) ==
            GroupNumber(ms[..j], vs[..j]) + (if |ms[j]| == 0 then 0 else ms[j][vs[j]] * Radix(ms[..j]))
    ensures Radix(ms[..j + 1]) == Radix(ms[..j]) * (if |ms[j]| == 0 then 1 else |ms[j]|)
  {
    assert ms[..j + 1][..j] == ms[..j] && vs[..j + 1][..j] == vs[..j];
    assert ms[..j + 1][j] == ms[j] && vs[..j + 1][j] == vs[j];
  }

  /** getGroups' inner loop for one item: the mixed-radix number over the grouping columns, in int arithmetic. */
  method GroupOfItem(items: seq<FileItem>, names: seq<string>, gm: map<string, map<string, int>>, i: nat)
    returns (iValue: int)
    requires i < |items| && MapsFor(gm, names, items)
    ensures iValue == GroupOf(items, names, i)
  {
    ghost var ms := TableMaps(items, names);
    ghost var vs := KeyOf(items[i], names);
    TableMapsCover(items, names, i);
    assert Covered(ms[..0], vs[..0]);
    var mul := 1;
    iValue := 0;
    for j := 0 to |names|
      invariant Covered(ms[..j], vs[..j])
      invariant mul == Wrap32(Radix(ms[..j]))
      invariant iValue == Wrap32(GroupNumber(ms[..j], vs[..j]))
    {
      GroupNumberStep(ms, vs, j);
      var m := gm[names[j]];
      assert m == ms[j];
      if |m| != 0 {
        var value := Extra(items[i], names[j]);
        assert value == vs[j];
        assert GroupNumber(ms[..j + 1], vs[..j + 1]) == GroupNumber(ms[..j], vs[..j]) + m[value] * Radix(ms[..j]);
        iValue, mul := IntDigitStep(iValue, mul, m[value], |m|, GroupNumber(ms[..j], vs[..j]), Radix(ms[..j]),
                                    GroupNumber(ms[..j + 1], vs[..j + 1]), Radix(ms[..j + 1]));
      }
    }
    assert ms[..|names|] == ms && vs[..|names|] == vs;
  }

  /**
   * One grouping column's step in int arithmetic: from the wrapped number
   * and multiplier, the wrapped next number and multiplier.
   */
  method IntDigitStep(iValue: int, mul: int, d: int, size: int, ghost low: int, ghost r: int,
                      ghost next: int, ghost nextR: int)
    returns (iValue': int, mul': int)
    requires iValue == Wrap32(low) && mul == Wrap32(r)
    requires next == low + d * r && nextR == r * size
    ensures iValue' == Wrap32(next) && mul' == Wrap32(nextR)
  {
    WrapMul(r, d);
    assert mul * d == d * mul && r * d == d * r;
    WrapAdd(low, d * r);
    WrapMul(r, size);
    iValue' := Wrap32(iValue + Wrap32(d * mul));
    mul' := Wrap32(mul * size);
  }

  /**
   * getGroups' outer loop: every item gets its group, nothing else about
   * it changes, and the largest group (at least 0) is returned.
   */
  method AssignGroups(items: seq<FileItem>, names: seq<string>, gm: map<string, map<string, int>>)
    returns (out: seq<FileItem>, maxValue: int)
    requires MapsFor(gm, names, items)
    ensures |out| == |items|
    ensures forall i | 0 <= i < |items| :: out[i] == items[i].(group := GroupOf(items, names, i))
    ensures 0 <= maxValue <= IntMax && forall i | 0 <= i < |out| :: out[i].group <= maxValue
    ensures maxValue == 0 || exists i | 0 <= i < |out| :: out[i].group == maxValue
  {
    out := [];
    maxValue := 0;
    for i := 0 to |items|
      invariant |out| == i && AssignedUpTo(items, names, out, maxValue)
    {
      var iValue := GroupOfItem(items, names, gm, i);
      AssignedStep(items, names, out, maxValue, iValue);
      out := out + [items[i].(group := iValue)];
      if iValue > maxValue {
        maxValue := iValue;
      }
    }
  }

  /** The first |out| items have their groups, and maxValue is 0 or the largest of them. */
  ghost predicate AssignedUpTo(items: seq<FileItem>, names: seq<string>, out: seq<FileItem>, maxValue: int)
  {
    |out| <= |items| &&
    (forall k | 0 <= k < |out| :: out[k] == items[k].(group := GroupOf(items, names, k))) &&
    0 <= maxValue <= IntMax && (forall k | 0 <= k < |out| :: out[k].group <= maxValue) &&
    (maxValue == 0 || exists k | 0 <= k < |out| :: out[k].group == maxValue)
  }

  /** Assigning the next item its group keeps the loop's state. */
  lemma {:induction false} AssignedStep(items: seq<FileItem>, names: seq<string>, out: seq<FileItem>, maxValue: int, v: int)
    requires AssignedUpTo(items, names, out, maxValue) && |out| < |items| && v == GroupOf(items, names, |out|)
    ensures AssignedUpTo(items, names, out + [items[|out|].(group := v)], if v > maxValue then v else maxValue)
  {
    var out' := out + [items[|out|].(group := v)];
    var m := if v > maxValue then v else maxValue;
    forall k | 0 <= k < |out'| ensures out'[k] == items[k].(group := GroupOf(items, names, k)) && out'[k].group <= m {
      if k < |out| {
        assert out'[k] == out[k];
      }
    }
    if m != 0 {
      if v > maxValue {
        assert out'[|out|].group == m;
      } else {
        var k :| 0 <= k < |out| && out[k].group == maxValue;
        assert out'[k] == out[k];
      }
    }
  }

  /**
   * The grouping state getGroups leaves: groupMap built from the items,
   * each item given its group and nothing else changed, and the size one
   * above the largest group (0 when there is none above it), in int
   * arithmetic: a largest group of Integer.MAX_VALUE leaves Integer.MIN_VALUE.
   */
  ghost predicate Grouped(gm: map<string, map<string, int>>, names: seq<string>, before: seq<FileItem>,
                          after: seq<FileItem>, size: int)
  {
    var top := if size == IntMin then IntMax else size - 1;
    MapsFor(gm, names, before) &&
    |after| == |before| &&
    (forall i | 0 <= i < |before| :: after[i] == before[i].(group := GroupOf(before, names, i))) &&
    0 <= top <= IntMax && size == Wrap32(top + 1) &&
    (forall i | 0 <= i < |after| :: after[i].group <= top) &&
    (top == 0 || exists i | 0 <= i < |after| :: after[i].group == top)
  }

  /** groupSize from the largest group: one above it in int arithmetic, which Grouped reads back. */
  lemma {:induction false} SizeAboveTop(top: int)
    requires 0 <= top <= IntMax
    ensures var size := Wrap32(top + 1); (if size == IntMin then IntMax else size - 1) == top
  {
    if top == IntMax {
      assert Wrap32(top + 1) == IntMin;
    }
  }

  // ----- times and file lists -----

  const LongMax: int := 0x7fff_ffff_ffff_ffff

  /** The firstDate the loading loops end with: the earliest date, or Long.MAX_VALUE when there is none earlier. */
  function FirstDate(items: seq<FileItem>): (d: int)
    ensures d <= LongMax && forall i | 0 <= i < |items| :: d <= items[i].date
    ensures d == LongMax || exists i | 0 <= i < |items| :: items[i].date == d
  {
    if items == [] then LongMax
    else
      var n := |items| - 1;
      var d := FirstDate(items[..n]);
      assert forall i | 0 <= i < n :: items[..n][i] == items[i];
      if items[n].date < d then items[n].date else d
  }

  /** Each item's date made relative to first. */
  function ShiftDates(items: seq<FileItem>, first: int): seq<FileItem>
  {
    seq(|items|, i requires 0 <= i < |items| => items[i].(date := items[i].date - first))
  }

  /**
   * Relative times: with dates that fit a long, the earliest item gets 0,
   * none gets a negative time, and the gaps between items are kept.
   */
  lemma {:induction false} RelativeDates(items: seq<FileItem>)
    requires forall i | 0 <= i < |items| :: items[i].date <= LongMax
    ensures forall i | 0 <= i < |items| :: ShiftDates(items, FirstDate(items))[i].date >= 0
    ensures |items| > 0 ==> exists i | 0 <= i < |items| :: ShiftDates(items, FirstDate(items))[i].date == 0
    ensures forall i, k | 0 <= i < |items| && 0 <= k < |items| ::
              ShiftDates(items, FirstDate(items))[i].date - ShiftDates(items, FirstDate(items))[k].date == items[i].date - items[k].date
  {
    var d := FirstDate(items);
    if |items| > 0 {
      var i := 0;
      if d != LongMax {
        i :| 0 <= i < |items| && items[i].date == d;
      }
      assert ShiftDates(items, d)[i].date == 0;
    }
  }

  /** The loadScanTable ending: the earliest time is found, then every item's time is made relative to it. */
  method Relativize(items: seq<FileItem>) returns (out: seq<FileItem>)
    ensures out == ShiftDates(items, FirstDate(items))
  {
    var firstDate := LongMax;
    for i := 0 to |items|
      invariant firstDate == FirstDate(items[..i])
    {
      assert items[..i + 1][..i] == items[..i];
      if items[i].date < firstDate {
        firstDate := items[i].date;
      }
    }
    assert items[..|items|] == items;
    out := ShiftAll(items, firstDate);
  }

  method ShiftAll(items: seq<FileItem>, first: int) returns (out: seq<FileItem>)
    ensures out == ShiftDates(items, first)
  {
    out := [];
    for i := 0 to |items|
      invariant |out| == i
      invariant forall k | 0 <= k < i :: out[k] == items[k].(date := items[k].date - first)
    {
      out := out + [items[i].(date := items[i].date - first)];
    }
  }

  /** List.sort by date: each item goes before the first one not earlier than it. */
  function InsertByDate(x: FileItem, s: seq<FileItem>): seq<FileItem>
  {
    if s == [] then [x] else if x.date <= s[0].date then [x] + s else [s[0]] + InsertByDate(x, s[1..])
  }

  function SortByDate(s: seq<FileItem>): seq<FileItem>
  {
    if s == [] then [] else InsertByDate(s[0], SortByDate(s[1..]))
  }

  predicate SortedByDate(s: seq<FileItem>)
  {
    forall i, j | 0 <= i < j < |s| :: s[i].date <= s[j].date
  }

  lemma {:induction false} InsertByDateProps(x: FileItem, s: seq<FileItem>)
    requires SortedByDate(s)
    ensures SortedByDate(InsertByDate(x, s))
    ensures multiset(InsertByDate(x, s)) == multiset(s) + multiset{x}
    ensures InsertByDate(x, s)[0] == x || (s != [] && InsertByDate(x, s)[0] == s[0])
  {
    InsertByDateSorted(x, s);
    InsertByDateKeeps(x, s);
  }

  /** Inserting into a date-sorted list keeps it sorted; the new head is the item or the old head. */
  lemma {:induction false} InsertByDateSorted(x: FileItem, s: seq<FileItem>)
    requires SortedByDate(s)
    ensures SortedByDate(InsertByDate(x, s))
    ensures InsertByDate(x, s)[0] == x || (s != [] && InsertByDate(x, s)[0] == s[0])
    decreases |s|
  {
    if s == [] {
      assert InsertByDate(x, s) == [x];
    } else if x.date <= s[0].date {
      SortedCons(x, s);
    } else {
      var t := s[1..];
      assert SortedByDate(t) by {
        forall i, j | 0 <= i < j < |t| ensures t[i].date <= t[j].date {
          assert t[i] == s[i + 1] && t[j] == s[j + 1];
        }
      }
      InsertByDateSorted(x, t);
      var r := InsertByDate(x, t);
      assert InsertByDate(x, s) == [s[0]] + r;
      assert r[0].date >= s[0].date by {
        if r[0] != x { assert r[0] == s[1]; }
      }
      SortedCons(s[0], r);
    }
  }

  /** Inserting adds exactly the item. */
  lemma {:induction false} InsertByDateKeeps(x: FileItem, s: seq<FileItem>)
    ensures multiset(InsertByDate(x, s)) == multiset(s) + multiset{x}
    decreases |s|
  {
    if s != [] && x.date > s[0].date {
      InsertByDateKeeps(x, s[1..]);
      assert s == [s[0]] + s[1..];
    }
  }

  /** An item no later than the head of a sorted list keeps it sorted in front. */
  lemma {:induction false} SortedCons(a: FileItem, r: seq<FileItem>)
    requires SortedByDate(r) && (r == [] || a.date <= r[0].date)
    ensures SortedByDate([a] + r)
  {
    var l := [a] + r;
    forall i, j | 0 <= i < j < |l| ensures l[i].date <= l[j].date {
      if i == 0 {
        if j > 1 { assert r[0].date <= r[j - 1].date; }
      } else {
        assert l[i] == r[i - 1] && l[j] == r[j - 1];
      }
    }
  }

  /** The sorted list is ordered by date and holds the same items. */
  lemma {:induction false} SortByDateProps(s: seq<FileItem>)
    ensures SortedByDate(SortByDate(s))
    ensures multiset(SortByDate(s)) == multiset(s)
    decreases |s|
  {
    if s != [] {
      var t := SortByDate(s[1..]);
      SortByDateProps(s[1..]);
      InsertByDateSorted(s[0], t);
      InsertByDateKeeps(s[0], t);
      assert SortByDate(s) == InsertByDate(s[0], t);
      assert multiset(s) == multiset(s[1..]) + multiset{s[0]} by {
        assert s == [s[0]] + s[1..];
      }
    }
  }

  /** A file the reader could open: the fields loadScanFiles takes from it. */
  datatype FidInfo = FidInfo(sequence: string, nDim: int, date: int)

  /** The item loadScanFiles makes for a readable file. */
  function NewItem(path: string, fid: FidInfo): FileItem
  {
    FileItem(path, fid.sequence, fid.nDim, fid.date, 0, "", map[], 0)
  }

  /** The items of the readable files, in file order (an unreadable file is None). */
  function Collected(paths: seq<string>, fids: seq<Option<FidInfo>>): seq<FileItem>
    requires |paths| == |fids|
  {
    if fids == [] then []
    else
      var n := |fids| - 1;
      Collected(paths[..n], fids[..n]) + (if fids[n].Some? then [NewItem(paths[n], fids[n].value)] else [])
  }

  lemma {:induction false} CollectedStep(paths: seq<string>, fids: seq<Option<FidInfo>>, i: nat)
    requires |paths| == |fids| && i < |fids|
    ensures Collected(paths[..i + 1], fids[..i + 1]) ==
            Collected(paths[..i], fids[..i]) + (if fids[i].Some? then [NewItem(paths[i], fids[i].value)] else [])
  {
    assert paths[..i + 1][..i] == paths[..i] && fids[..i + 1][..i] == fids[..i];
  }

  lemma {:induction false} FirstDateStep(s: seq<FileItem>, x: FileItem)
    ensures FirstDate(s + [x]) == if x.date < FirstDate(s) then x.date else FirstDate(s)
  {
    assert (s + [x])[..|s|] == s;
  }

  /** The items are exactly those of the readable files: none is made for an unreadable one. */
  lemma {:induction false} CollectedItems(paths: seq<string>, fids: seq<Option<FidInfo>>)
    requires |paths| == |fids|
    ensures forall x :: x in Collected(paths, fids) <==>
              exists i | 0 <= i < |fids| :: fids[i].Some? && x == NewItem(paths[i], fids[i].value)
  {
    if fids != [] {
      var n := |fids| - 1;
      CollectedItems(paths[..n], fids[..n]);
      forall x ensures x in Collected(paths, fids) <==>
                         exists i | 0 <= i < |fids| :: fids[i].Some? && x == NewItem(paths[i], fids[i].value)
      {
        if exists i | 0 <= i < |fids| :: fids[i].Some? && x == NewItem(paths[i], fids[i].value) {
          var i :| 0 <= i < |fids| && fids[i].Some? && x == NewItem(paths[i], fids[i].value);
          if i < n {
            assert paths[..n][i] == paths[i] && fids[..n][i] == fids[i];
          }
        }
        if x in Collected(paths[..n], fids[..n]) {
          var i :| 0 <= i < n && fids[..n][i].Some? && x == NewItem(paths[..n][i], fids[..n][i].value);
          assert fids[i] == fids[..n][i] && paths[i] == paths[..n][i];
        }
      }
    }
  }

  /**
   * loadScanFiles after the paths are settled: the readable files' items,
   * sorted by date, each date made relative to the earliest.
   */
  method SortAndShift(items: seq<FileItem>, firstDate: int) returns (out: seq<FileItem>)
    ensures out == ShiftDates(SortByDate(items), firstDate)
  {
    var sorted := SortByDate(items);
    out := ShiftAll(sorted, firstDate);
  }

  /** A loaded file list is ordered by relative time, starting at 0, and holds each readable file's item once. */
  lemma {:induction false} LoadedOrder(items: seq<FileItem>)
    requires forall i | 0 <= i < |items| :: items[i].date <= LongMax
    ensures SortedByDate(ShiftDates(SortByDate(items), FirstDate(items)))
    ensures |items| > 0 ==> ShiftDates(SortByDate(items), FirstDate(items))[0].date == 0
    ensures |SortByDate(items)| == |items| && multiset(SortByDate(items)) == multiset(items)
  {
    var s := SortByDate(items);
    SortByDateProps(items);
    assert |s| == |items| by {
      assert |multiset(s)| == |multiset(items)|;
    }
    var d := FirstDate(items);
    var out := ShiftDates(s, d);
    assert SortedByDate(out) by {
      forall i, j | 0 <= i < j < |out| ensures out[i].date <= out[j].date {
        assert s[i].date <= s[j].date;
      }
    }
    if |items| > 0 {
      assert s[0] in multiset(items);
      var k :| 0 <= k < |items| && items[k] == s[0];
      assert d <= s[0].date;
      if d == LongMax {
        assert items[0].date == LongMax;
        assert s[0].date <= LongMax;
      } else {
        var i :| 0 <= i < |items| && items[i].date == d;
        assert items[i] in multiset(s);
        var j :| 0 <= j < |s| && s[j] == items[i];
        assert s[0].date <= s[j].date;
      }
    }
  }


  /** The earliest of the dates. */
  function MinDate(dates: seq<int>): (m: int)
    requires |dates| > 0
    ensures m in dates && forall i | 0 <= i < |dates| :: m <= dates[i]
  {
    if |dates| == 1 then dates[0]
    else
      var m := MinDate(dates[..|dates| - 1]);
      assert forall i | 0 <= i < |dates| - 1 :: dates[..|dates| - 1][i] == dates[i];
      if dates[|dates| - 1] < m then dates[|dates| - 1] else m
  }
}
