/**
 * Dataset group indices: the position of one group of rows along each
 * indirect dimension of a dataset, its text forms for processing scripts,
 * and its expansion into the row indices the group covers.
 */
module GroupIndex {
  import opened Wrappers
  import opened Text

  /** A group: its index along each indirect dimension (negative for none) and its number. */
  datatype DatasetGroupIndex = DatasetGroupIndex(indices: seq<int>, groupIndex: int)

  /**
   * The constructor copies the caller's array, so the group keeps the values
   * the array held at construction whatever happens to the array later.
   */
  method New(indices: array<int>, groupIndex: int) returns (g: DatasetGroupIndex)
    ensures g.indices == indices[..] && g.groupIndex == groupIndex
  {
    g := DatasetGroupIndex(indices[..], groupIndex);
  }

  // ---------------------------------------------------------------------------
  // equals / hashCode
  // ---------------------------------------------------------------------------

  /** equals: the same group number and, element by element, the same indices. */
  predicate Equals(a: DatasetGroupIndex, b: DatasetGroupIndex)
  {
    a.groupIndex == b.groupIndex && |a.indices| == |b.indices|
    && forall k | 0 <= k < |a.indices| :: a.indices[k] == b.indices[k]
  }

  /** Arrays.hashCode of an int array: 1, then 31 * h + e for each element, in int arithmetic. */
  function ArraysHash(s: seq<int>): int
  {
    if s == [] then 1 else Wrap32(31 * ArraysHash(s[..|s| - 1]) + s[|s| - 1])
  }

  /** hashCode: Objects.hash of the group number, then 31 * result plus the indices' hash. */
  function HashCode(g: DatasetGroupIndex): int
  {
    Wrap32(31 * Wrap32(31 + g.groupIndex) + ArraysHash(g.indices))
  }

  /** equals is value equality, and equal groups hash alike. */
  lemma {:induction false} EqualsIsValueEquality(a: DatasetGroupIndex, b: DatasetGroupIndex)
    ensures Equals(a, b) <==> a == b
    ensures Equals(a, b) ==> HashCode(a) == HashCode(b)
  {
    if Equals(a, b) {
      assert a.indices == b.indices;
    }
  }

  // ---------------------------------------------------------------------------
  // toIndexString
  // ---------------------------------------------------------------------------

  /** One index as printed: a non-negative index counts from one, a negative one is printed as it is. */
  function IndexText(i: int): string
  {
    IntToString(if i >= 0 then Wrap32(i + 1) else i)
  }

  function IndexTexts(indices: seq<int>): (r: seq<string>)
    ensures |r| == |indices| && forall k | 0 <= k < |indices| :: r[k] == IndexText(indices[k])
  {
    if indices == [] then [] else IndexTexts(indices[..|indices| - 1]) + [IndexText(indices[|indices| - 1])]
  }

  /** The printed indices separated by commas. */
  function IndexString(indices: seq<int>): string
  {
    Join(IndexTexts(indices), ",")
  }

  /** toIndexString: the builder loop, a comma before every index but the first. */
  method ToIndexString(g: DatasetGroupIndex) returns (s: string)
    ensures s == IndexString(g.indices)
  {
    var indices := g.indices;
    var first := true;
    s := "";
    for i := 0 to |indices|
      invariant first <==> i == 0
      invariant s == IndexString(indices[..i])
    {
      IndexStringStep(indices, i);
      if !first {
        s := s + ",";
      } else {
        first := false;
      }
      var index := indices[i];
      if index >= 0 {
        index := Wrap32(index + 1);
      }
      s := s + IntToString(index);
    }
    assert indices[..|indices|] == indices;
  }

  /** One round of the toIndexString loop. */
  lemma {:induction false} IndexStringStep(indices: seq<int>, i: nat)
    requires i < |indices|
    ensures IndexString(indices[..i + 1])
      == (if i == 0 then "" else IndexString(indices[..i]) + ",") + IndexText(indices[i])
  {
    assert indices[..i + 1] == indices[..i] + [indices[i]];
    JoinAppend(IndexTexts(indices[..i]), IndexText(indices[i]), ",");
  }

  /** The printed form of an index read back: a positive number n stands for n - 1. */
  function ReadIndex(n: int): int
  {
    if n > 0 then n - 1 else n
  }

  /** Integer text holds neither commas nor brackets. */
  lemma {:induction false} IntTextPlain(n: int)
    ensures ',' !in IntToString(n) && '[' !in IntToString(n) && ']' !in IntToString(n)
  {
    var d := NatToString(if n < 0 then -n else n);
    assert forall k | 0 <= k < |d| :: IsDigit(d[k]);
  }

  /**
   * The index string can be read back: split at commas, each field parses as
   * an integer that gives the index again (for indices below the int maximum).
   */
  lemma {:induction false} IndexStringReadsBack(indices: seq<int>)
    requires |indices| >= 1
    requires forall k | 0 <= k < |indices| :: IntMin <= indices[k] < IntMax
    ensures var fields := Split(IndexString(indices), ',');
      |fields| == |indices| &&
      forall k | 0 <= k < |indices| :: ParseInt(fields[k]).Some? && ReadIndex(ParseInt(fields[k]).value) == indices[k]
  {
    var texts := IndexTexts(indices);
    forall k | 0 <= k < |indices|
      ensures ',' !in texts[k]
      ensures ParseInt(texts[k]).Some? && ReadIndex(ParseInt(texts[k]).value) == indices[k]
    {
      var i := indices[k];
      var printed := if i >= 0 then i + 1 else i;
      IntTextPlain(printed);
      ParseIntToString(printed);
    }
    SplitJoin(texts, ',');
  }

  // ---------------------------------------------------------------------------
  // getSkipString
  // ---------------------------------------------------------------------------

  function GroupTexts(groups: seq<DatasetGroupIndex>): (r: seq<string>)
    ensures |r| == |groups| && forall k | 0 <= k < |groups| :: r[k] == IndexString(groups[k].indices)
  {
    if groups == [] then [] else GroupTexts(groups[..|groups| - 1]) + [IndexString(groups[|groups| - 1].indices)]
  }

  /**
   * The builder of getSkipString after the opening bracket and the given
   * texts: the separator "],[" is added only when the builder holds more
   * than the opening bracket.
   */
  function SkipBuilt(texts: seq<string>): string
  {
    if texts == [] then "["
    else
      var b := SkipBuilt(texts[..|texts| - 1]);
      b + (if |b| != 1 then "],[" else "") + texts[|texts| - 1]
  }

  /** getSkipString as written: none for no groups, else the built text closed by a bracket. */
  function SkipStringAsWritten(groups: seq<DatasetGroupIndex>): Option<string>
  {
    if groups == [] then None else Some(SkipBuilt(GroupTexts(groups)) + "]")
  }

  /** getSkipString as intended: each group's index string in brackets, separated by commas. */
  function SkipString(groups: seq<DatasetGroupIndex>): Option<string>
  {
    if groups == [] then None else Some("[" + Join(GroupTexts(groups), "],[") + "]")
  }

  /** getSkipString: the builder loop over the groups in iteration order. */
  method GetSkipString(groups: seq<DatasetGroupIndex>) returns (r: Option<string>)
    ensures r == SkipStringAsWritten(groups)
  {
    r := None;
    if |groups| != 0 {
      var b := "[";
      for i := 0 to |groups|
        invariant b == SkipBuilt(GroupTexts(groups[..i]))
      {
        var text := ToIndexString(groups[i]);
        SkipBuiltStep(groups, i);
        if |b| != 1 {
          b := b + "],[";
        }
        b := b + text;
      }
      assert groups[..|groups|] == groups;
      r := Some(b + "]");
    }
  }

  /** One round of the getSkipString loop. */
  lemma {:induction false} SkipBuiltStep(groups: seq<DatasetGroupIndex>, i: nat)
    requires i < |groups|
    ensures var b := SkipBuilt(GroupTexts(groups[..i]));
      SkipBuilt(GroupTexts(groups[..i + 1])) == b + (if |b| != 1 then "],[" else "") + IndexString(groups[i].indices)
  {
    assert groups[..i + 1][..i] == groups[..i];
  }

  lemma {:induction false} JoinStartsNonEmpty(parts: seq<string>, sep: string)
    requires parts != [] && parts[0] != []
    ensures |Join(parts, sep)| > 0
  {
    if |parts| > 1 {
      assert Join(parts, sep) == parts[0] + sep + Join(parts[1..], sep);
    }
  }

  /** When the first text is not empty, the builder separates every text. */
  lemma {:induction false} SkipBuiltJoins(texts: seq<string>)
    requires texts != [] && texts[0] != []
    ensures SkipBuilt(texts) == "[" + Join(texts, "],[")
  {
    var n := |texts| - 1;
    if n > 0 {
      var prefix := texts[..n];
      SkipBuiltJoins(prefix);
      JoinStartsNonEmpty(prefix, "],[");
      JoinAppend(prefix, texts[n], "],[");
      assert prefix + [texts[n]] == texts;
    }
  }

  /** As written and as intended agree whenever the first group has at least one index. */
  lemma {:induction false} SkipStringAgrees(groups: seq<DatasetGroupIndex>)
    requires groups != [] && groups[0].indices != []
    ensures SkipStringAsWritten(groups) == SkipString(groups)
  {
    var texts := GroupTexts(groups);
    assert texts[0] == Join(IndexTexts(groups[0].indices), ",");
    JoinStartsNonEmpty(IndexTexts(groups[0].indices), ",") by {
      assert IndexTexts(groups[0].indices)[0] == IntToString(if groups[0].indices[0] >= 0 then Wrap32(groups[0].indices[0] + 1) else groups[0].indices[0]);
    }
    SkipBuiltJoins(texts);
  }

  /** How often a character occurs. */
  function CountChar(s: string, c: char): nat
  {
    if s == [] then 0 else CountChar(s[..|s| - 1], c) + (if s[|s| - 1] == c then 1 else 0)
  }

  lemma {:induction false} CountCharAppend(a: string, b: string, c: char)
    ensures CountChar(a + b, c) == CountChar(a, c) + CountChar(b, c)
    decreases |b|
  {
    if b != [] {
      var n := |b| - 1;
      assert (a + b)[..|a + b| - 1] == a + b[..n] && (a + b)[|a + b| - 1] == b[n];
      CountCharAppend(a, b[..n], c);
    } else {
      assert a + b == a;
    }
  }

  lemma {:induction false} CountCharAbsent(s: string, c: char)
    requires c !in s
    ensures CountChar(s, c) == 0
  {
    if s != [] {
      CountCharAbsent(s[..|s| - 1], c);
    }
  }

  /** Joining texts without `]` by "],[" gives one `]` less than there are texts. */
  lemma {:induction false} JoinBrackets(texts: seq<string>)
    requires texts != []
    requires forall k | 0 <= k < |texts| :: ']' !in texts[k]
    ensures CountChar(Join(texts, "],["), ']') == |texts| - 1
  {
    var n := |texts| - 1;
    if n == 0 {
      CountCharAbsent(texts[0], ']');
    } else {
      var prefix := texts[..n];
      JoinBrackets(prefix);
      JoinAppend(prefix, texts[n], "],[");
      assert prefix + [texts[n]] == texts;
      CountCharAppend(Join(prefix, "],["), "],[", ']');
      CountCharAppend(Join(prefix, "],[") + "],[", texts[n], ']');
      CountCharAbsent(texts[n], ']');
      assert CountChar("],[", ']') == 1 by {
        assert "],["[..2] == "],";
        assert "],"[..1] == "]";
        assert "]"[..0] == "";
      }
    }
  }

  /** The index strings hold no brackets. */
  lemma {:induction false} GroupTextsPlain(groups: seq<DatasetGroupIndex>)
    ensures forall k | 0 <= k < |groups| :: ']' !in GroupTexts(groups)[k]
  {
    forall k | 0 <= k < |groups| ensures ']' !in GroupTexts(groups)[k] {
      var texts := IndexTexts(groups[k].indices);
      forall t | 0 <= t < |texts| ensures ']' !in texts[t] {
        var i := groups[k].indices[t];
        IntTextPlain(if i >= 0 then Wrap32(i + 1) else i);
      }
      JoinPlain(texts, ",", ']');
    }
  }

  lemma {:induction false} JoinPlain(parts: seq<string>, sep: string, c: char)
    requires c !in sep && forall k | 0 <= k < |parts| :: c !in parts[k]
    ensures c !in Join(parts, sep)
  {
    if |parts| > 1 {
      JoinPlain(parts[1..], sep, c);
    }
  }

  /** The intended skip string closes one bracketed list per group. */
  lemma {:induction false} SkipStringOneListPerGroup(groups: seq<DatasetGroupIndex>)
    requires groups != []
    ensures CountChar(SkipString(groups).value, ']') == |groups|
  {
    var texts := GroupTexts(groups);
    GroupTextsPlain(groups);
    JoinBrackets(texts);
    var j := Join(texts, "],[");
    CountCharAppend("[" + j, "]", ']');
    CountCharAppend("[", j, ']');
    assert CountChar("]", ']') == 1 by {
      assert "]"[..0] == "";
    }
    assert CountChar("[", ']') == 0 by {
      assert "["[..0] == "";
    }
  }

  /**
   * As written, a first group without indices swallows the separator before
   * the second: two groups give a single bracketed list.
   */
  lemma {:induction false} SkipStringLosesSeparator()
    ensures var groups := [DatasetGroupIndex([], 0), DatasetGroupIndex([0], 0)];
      SkipStringAsWritten(groups) == Some("[1]") && SkipString(groups) == Some("[],[1]")
  {
    var groups := [DatasetGroupIndex([], 0), DatasetGroupIndex([0], 0)];
    ExampleTexts();
    assert SkipBuilt(["", "1"]) == "[1" by {
      assert ["", "1"][..1] == [""];
      assert [""][..0] == [];
    }
    assert Join(["", "1"], "],[") == "],[1" by {
      assert ["", "1"][1..] == ["1"];
    }
    assert "[1" + "]" == "[1]";
    assert "[" + "],[1" + "]" == "[],[1]";
  }

  /** The index strings of a group without indices and of a group holding index 0. */
  lemma {:induction false} ExampleTexts()
    ensures GroupTexts([DatasetGroupIndex([], 0), DatasetGroupIndex([0], 0)]) == ["", "1"]
  {
    var groups := [DatasetGroupIndex([], 0), DatasetGroupIndex([0], 0)];
    assert IndexString([]) == "" by {
      assert IndexTexts([]) == [];
    }
    assert IndexString([0]) == "1" by {
      assert IntToString(1) == "1";
      assert IndexTexts([0]) == ["1"];
    }
  }

  // ---------------------------------------------------------------------------
  // groupToIndices
  // ---------------------------------------------------------------------------

  function Pow2(n: nat): (r: nat)
    ensures r >= 1
  {
    if n == 0 then 1 else 2 * Pow2(n - 1)
  }

  /**
   * The counts of a counter of n dimensions of size two after j steps: the n
   * binary digits of j, the last dimension varying fastest.
   */
  function Counts(j: nat, n: nat): (cs: seq<int>)
    ensures |cs| == n && forall k | 0 <= k < n :: 0 <= cs[k] <= 1
  {
    if n == 0 then [] else Counts(j / 2, n - 1) + [j % 2]
  }

  /** The number whose binary digits, most significant first, are cs. */
  function BitsValue(cs: seq<int>): int
  {
    if cs == [] then 0 else 2 * BitsValue(cs[..|cs| - 1]) + cs[|cs| - 1]
  }

  /** The counts after j steps, read as a binary number, give j back. */
  lemma {:induction false} CountsValue(j: nat, n: nat)
    requires j < Pow2(n)
    ensures BitsValue(Counts(j, n)) == j
  {
    if n > 0 {
      var cs := Counts(j, n);
      CountsValue(j / 2, n - 1);
      assert cs[..n - 1] == Counts(j / 2, n - 1);
    }
  }

  /** One element of an expanded row: index * 2 + count in int arithmetic, or -1 for a negative index. */
  function Element(index: int, count: int): int
  {
    if index >= 0 then Wrap32(index * 2 + count) else -1
  }

  /** The row a counter state selects. */
  function Expanded(indices: seq<int>, cs: seq<int>): (row: seq<int>)
    requires |cs| == |indices|
    ensures |row| == |indices| && forall k | 0 <= k < |indices| :: row[k] == Element(indices[k], cs[k])
  {
    seq(|indices|, k requires 0 <= k < |indices| => Element(indices[k], cs[k]))
  }

  /** More dimensions, no fewer counter states. */
  lemma {:induction false} Pow2Grows(m: nat, n: nat)
    requires m <= n
    ensures Pow2(m) <= Pow2(n)
  {
    if m < n {
      Pow2Grows(m, n - 1);
    }
  }

  /** Dimensions add, counter states multiply. */
  lemma {:induction false} Pow2Add(a: nat, b: nat)
    ensures Pow2(a + b) == Pow2(a) * Pow2(b)
  {
    if b > 0 {
      Pow2Add(a, b - 1);
      assert Pow2(a + b) == 2 * Pow2(a + b - 1);
    }
  }

  /** Thirty dimensions give 2^30 states, still an int. */
  lemma Pow2Thirty()
    ensures Pow2(30) == 0x4000_0000
  {
    assert Pow2(1) == 2 && Pow2(2) == 4 && Pow2(3) == 8 && Pow2(4) == 16 && Pow2(5) == 32;
    Pow2Add(5, 5);
    Pow2Add(10, 10);
    Pow2Add(20, 10);
  }

  /**
   * The counter's total size, the product of the n sizes 2 in int
   * arithmetic: 2^n up to 30 dimensions, and not positive from 31 on, where
   * the product wraps to Integer.MIN_VALUE and then to 0.
   */
  lemma {:induction false} CounterTotal(n: nat)
    ensures n <= 30 ==> Wrap32(Pow2(n)) == Pow2(n) && 1 <= Pow2(n) <= 0x4000_0000
    ensures n >= 31 ==> Wrap32(Pow2(n)) == (if n == 31 then IntMin else 0)
  {
    if n <= 30 {
      Pow2Grows(n, 30);
      Pow2Thirty();
    } else if n == 31 {
      Pow2Thirty();
      assert Pow2(31) == 2 * Pow2(30) == 0x8000_0000;
      assert Wrap32(0x8000_0000) == IntMin;
    } else {
      CounterTotal(n - 1);
      WrapMul(Pow2(n - 1), 2);
      assert Pow2(n) == Pow2(n - 1) * 2;
      if n == 32 {
        assert Wrap32(IntMin * 2) == 0;
      }
    }
  }

  /**
   * groupToIndices: one row per state of the counter, in the counter's
   * order. The counter refuses no dimensions (its last size is read at
   * index -1) and a total size that is not positive.
   */
  method GroupToIndices(g: DatasetGroupIndex) returns (result: Result<seq<seq<int>>>)
    ensures |g.indices| == 0 ==> result == Err(IndexOutOfBounds("Index -1 out of bounds for length 0"))
    ensures |g.indices| >= 31 ==> result.Err? && result.error.NotStrictlyPositive?
    ensures 1 <= |g.indices| <= 30 <==> result.Ok?
    ensures result.Ok? ==> |result.value| == Pow2(|g.indices|)
    ensures result.Ok? ==>
              forall j | 0 <= j < |result.value| :: result.value[j] == Expanded(g.indices, Counts(j, |g.indices|))
  {
    var indices := g.indices;
    var n := |indices|;
    var sizes := new int[n];
    for i := 0 to n
      invariant forall t | 0 <= t < i :: sizes[t] == 2
    {
      sizes[i] := 2;
    }
    if n == 0 {
      return Err(IndexOutOfBounds("Index -1 out of bounds for length 0"));
    }
    CounterTotal(n);
    var total := Wrap32(Pow2(n));
    if total <= 0 {
      return Err(NotStrictlyPositive(IntToString(total) + " is smaller than, or equal to, the minimum (0)"));
    }
    var rows := [];
    var j := 0;
    while j < total
      invariant 0 <= j <= total && |rows| == j
      invariant forall t | 0 <= t < n :: sizes[t] == 2
      invariant forall t | 0 <= t < j :: rows[t] == Expanded(indices, Counts(t, n))
    {
      var row := ExpandRow(indices, sizes, Counts(j, n));
      rows := rows + [row];
      j := j + 1;
    }
    return Ok(rows);
  }

  /** The inner loop of groupToIndices: the row one counter state selects. */
  method ExpandRow(indices: seq<int>, sizes: array<int>, counts: seq<int>) returns (row: seq<int>)
    requires sizes.Length == |indices| == |counts| && forall t | 0 <= t < sizes.Length :: sizes[t] == 2
    ensures row == Expanded(indices, counts)
  {
    var n := |indices|;
    var cIndices := new int[n];
    for k := 0 to n
      invariant forall t | 0 <= t < k :: cIndices[t] == Element(indices[t], counts[t])
    {
      if indices[k] >= 0 {
        cIndices[k] := Wrap32(indices[k] * sizes[k] + counts[k]);
      } else {
        cIndices[k] := -1;
      }
    }
    row := cIndices[..];
  }

  /**
   * With non-negative indices small enough not to overflow, every row picks,
   * along each dimension, one of the two rows 2i and 2i + 1, and no two rows
   * are the same: the 2^n rows are all the combinations.
   */
  lemma {:induction false} RowsDistinct(indices: seq<int>, j1: nat, j2: nat)
    requires forall k | 0 <= k < |indices| :: 0 <= indices[k] < 0x4000_0000
    requires j1 < Pow2(|indices|) && j2 < Pow2(|indices|) && j1 != j2
    ensures Expanded(indices, Counts(j1, |indices|)) != Expanded(indices, Counts(j2, |indices|))
  {
    var n := |indices|;
    var c1, c2 := Counts(j1, n), Counts(j2, n);
    CountsValue(j1, n);
    CountsValue(j2, n);
    assert c1 != c2;
    var k :| 0 <= k < n && c1[k] != c2[k];
    assert Element(indices[k], c1[k]) != Element(indices[k], c2[k]);
  }

  /** Each element of a row is 2i or 2i + 1 for a non-negative index i (without overflow), and -1 otherwise. */
  lemma {:induction false} RowElements(indices: seq<int>, j: nat, k: nat)
    requires k < |indices|
    ensures var e := Expanded(indices, Counts(j, |indices|))[k]; var i := indices[k];
      (i < 0 ==> e == -1) && (0 <= i < 0x4000_0000 ==> e == 2 * i || e == 2 * i + 1)
  {
  }
}
