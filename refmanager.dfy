/**
 * The reference panel of the processor: the text filters and converters of
 * its fields, the reference letter shown per dimension, the Python lines it
 * writes for the processing script and reads back from a script header, the
 * skip flags and the acquisition-order choices it offers.
 */
module RefPanel {
  import opened Wrappers
  import opened Text
  import AcqOrder

  // ----- input filters -----

  /** PositiveIntegerFilter: an edit is kept iff the new text matches [0-9]*. */
  predicate PositiveIntegerFilter(newText: string) { AllDigits(newText) }

  /** The text without one leading minus sign. */
  function AfterSign(t: string): string
  {
    if |t| > 0 && t[0] == '-' then t[1..] else t
  }

  /** Digits with at most one decimal point among them. */
  predicate PointDigits(u: string)
  {
    forall i | 0 <= i < |u| :: IsDigit(u[i]) || (u[i] == '.' && '.' !in u[..i])
  }

  /**
   * FixedDecimalFilter: an edit is kept iff the new text matches
   * -?([0-9]*)?(\.[0-9]*)? : an optional minus, then digits with at most one
   * decimal point among them.
   */
  predicate FixedDecimalFilter(newText: string) { PointDigits(AfterSign(newText)) }

  predicate HasDigit(t: string) { exists i | 0 <= i < |t| :: IsDigit(t[i]) }

  /** Every prefix of a kept text is kept too, so the field can be typed one character at a time. */
  lemma {:induction false} FixedDecimalPrefixes(t: string, n: nat)
    requires FixedDecimalFilter(t) && n <= |t|
    ensures FixedDecimalFilter(t[..n])
  {
    if n > 0 {
      var p := t[..n];
      assert p[0] == t[0];
      var u := AfterSign(t);
      var v := AfterSign(p);
      assert v == u[..|v|];
      forall i | 0 <= i < |v| ensures IsDigit(v[i]) || (v[i] == '.' && '.' !in v[..i]) {
        assert v[i] == u[i];
        assert v[..i] == u[..i];
      }
    }
  }

  // ----- converters -----

  /** PositiveIntegerStringConverter.toString: a negative value shows as "0". */
  function PositiveToString(value: int): string
  {
    if value < 0 then "0" else IntToString(value)
  }

  function NegativeNumber(): Error { Runtime("Negative number") }

  /**
   * PositiveIntegerStringConverter.fromString. The inherited converter trims
   * the text and gives null for a blank one, which the unboxing to int turns
   * into a NullPointerException; Integer.valueOf rejects malformed text, and a
   * negative value is refused.
   */
  function PositiveFromString(value: string): (r: Result<int>)
    ensures r.Ok? ==> 0 <= r.value <= IntMax
    ensures r.Ok? ==> ParseInt(JavaTrim(value)) == Some(r.value)
  {
    var t := JavaTrim(value);
    if |t| == 0 then Err(NullPointer("null Integer"))
    else match ParseInt(t)
      case None => Err(NumberFormat(t))
      case Some(n) => if n < 0 then Err(NegativeNumber()) else Ok(n)
  }

  /** What the converter shows always passes the filter, and reads back as the value clamped at 0. */
  lemma {:induction false} PositiveRoundTrip(n: int)
    requires n <= IntMax
    ensures PositiveIntegerFilter(PositiveToString(n))
    ensures PositiveFromString(PositiveToString(n)) == Ok(if n < 0 then 0 else n)
  {
    var m: nat := if n < 0 then 0 else n;
    var s := PositiveToString(n);
    assert s == NatToString(m);
    DigitsValueOfNatToString(m);
    PositiveFilteredReads(s);
  }

  /** A non-empty text the filter keeps reads as its digits, when they fit in an int; an empty one fails. */
  lemma {:induction false} PositiveFilteredReads(t: string)
    requires PositiveIntegerFilter(t)
    ensures |t| == 0 ==> PositiveFromString(t).Err?
    ensures |t| > 0 ==> (PositiveFromString(t).Ok? <==> DigitsValue(t) <= IntMax)
    ensures |t| > 0 && DigitsValue(t) <= IntMax ==> PositiveFromString(t) == Ok(DigitsValue(t))
  {
    if |t| > 0 {
      DigitsTrimmed(t);
      DigitsParse(t);
    }
  }

  /** Digits need no trimming and carry no sign. */
  lemma {:induction false} DigitsTrimmed(t: string)
    requires |t| > 0 && AllDigits(t)
    ensures JavaTrim(t) == t && Unsigned(t) == t
  {
    assert JavaTrim(t) == t by {
      assert !IsJavaSpace(t[0]) && !IsJavaSpace(t[|t| - 1]);
      TrimUnchanged(t, IsJavaSpace);
    }
    assert IsDigit(t[0]);
  }

  /** Integer.parseInt of digits: their value when it fits in an int. */
  lemma {:induction false} DigitsParse(t: string)
    requires |t| > 0 && AllDigits(t)
    ensures ParseInt(t) == if DigitsValue(t) <= IntMax then Some(DigitsValue(t)) else None
  {
    assert IsDigit(t[0]) && Unsigned(t) == t;
  }

  /**
   * FixedDecimalConverter.fromString: the empty text is 0.0; otherwise the
   * inherited converter trims, gives null for a blank text and reads the
   * rest with Double.valueOf.
   */
  function FixedDecimalFromString(value: string): (r: Result<Option<real>>)
    ensures value == "" ==> r == Ok(Some(0.0))
    ensures r.Ok? && r.value.Some? && value != "" ==> ParseDouble(value) == r.value
  {
    if value == "" then Ok(Some(0.0))
    else
      var t := JavaTrim(value);
      if |t| == 0 then Ok(None)
      else match ParseDouble(t)
        case None => Err(NumberFormat(t))
        case Some(x) => Ok(Some(x))
  }

  /** The first point splits point-digits into two runs of digits. */
  lemma {:induction false} PointDigitsSplit(u: string)
    requires PointDigits(u)
    ensures var k := FindChar(u, '.');
      AllDigits(u[..k]) && (k < |u| ==> AllDigits(u[k + 1..]))
  {
    var k := FindChar(u, '.');
    forall i | 0 <= i < k ensures IsDigit(u[..k][i]) {
      assert u[..k][i] == u[i];
      assert u[i] != '.';
    }
    if k < |u| {
      var w := u[k + 1..];
      forall i | 0 <= i < |w| ensures IsDigit(w[i]) {
        assert w[i] == u[k + 1 + i];
        assert u[..k + 1 + i][k] == '.';
      }
    }
  }

  /** Point-digits form a mantissa exactly when they hold a digit. */
  lemma {:induction false} PointDigitsMantissa(u: string)
    requires PointDigits(u)
    ensures IsDecimalLiteral(u) <==> HasDigit(u)
  {
    PointDigitsSplit(u);
    var k := FindChar(u, '.');
    forall i | 0 <= i < |u| ensures u[i] != 'e' && u[i] != 'E' && !IsTypeSuffix(u[i]) {
    }
    ExponentMarkAbsent(u);
    if HasDigit(u) {
      var j :| 0 <= j < |u| && IsDigit(u[j]);
      assert j != k;
    } else if |u| > 0 {
      assert u[0] == '.';
    }
  }

  /** A text the decimal filter keeps reads as a number iff it is empty or holds a digit. */
  lemma {:induction false} FixedDecimalFilteredReads(t: string)
    requires FixedDecimalFilter(t)
    ensures FixedDecimalFromString(t).Ok? <==> (t == "" || HasDigit(t))
    ensures HasDigit(t) ==> FixedDecimalFromString(t).value.Some?
  {
    if t != "" {
      FilteredLiteral(t);
      assert ParseDouble(t) == TrimmedDouble(t);
    }
  }

  /** A kept non-empty text is already trimmed, and is a decimal literal iff it holds a digit. */
  lemma {:induction false} FilteredLiteral(t: string)
    requires FixedDecimalFilter(t) && t != ""
    ensures JavaTrim(t) == t
    ensures IsDecimalLiteral(Unsigned(t)) <==> HasDigit(t)
  {
    NoSpaceTrim(t);
    var u := AfterSign(t);
    assert Unsigned(t) == u by {
      if t[0] != '-' {
        assert u[0] == t[0];
      }
    }
    PointDigitsMantissa(u);
    HasDigitAfterSign(t);
  }

  /** A leading minus sign is no digit. */
  lemma {:induction false} HasDigitAfterSign(t: string)
    ensures HasDigit(t) <==> HasDigit(AfterSign(t))
  {
    var u := AfterSign(t);
    var d := |t| - |u|;
    if HasDigit(t) {
      var j :| 0 <= j < |t| && IsDigit(t[j]);
      assert u[j - d] == t[j];
    }
    if HasDigit(u) {
      var j :| 0 <= j < |u| && IsDigit(u[j]);
      assert t[j + d] == u[j];
    }
  }

  /** A text of digits, signs and points has no white space to trim. */
  lemma {:induction false} NoSpaceTrim(t: string)
    requires FixedDecimalFilter(t) && t != ""
    ensures JavaTrim(t) == t
  {
    var u := AfterSign(t);
    assert !IsJavaSpace(t[0]) by {
      if t[0] != '-' {
        assert u[0] == t[0];
      }
    }
    assert !IsJavaSpace(t[|t| - 1]) by {
      if |u| > 0 {
        assert u[|u| - 1] == t[|t| - 1];
      }
    }
    TrimUnchanged(t, IsJavaSpace);
  }

  // ----- the reference letter -----

  /**
   * DataProps.REF.getDataValue: nothing for the first dimension; otherwise
   * the name of the nucleus is scanned left to right and the latest letter
   * seen is kept.
   */
  function RefValue(iDim: int, tn: string): string
  {
    if iDim == 0 then "" else LetterScan(tn, 0, "")
  }

  function LetterScan(tn: string, i: nat, value: string): string
    requires i <= |tn|
    decreases |tn| - i
  {
    if i == |tn| then value else LetterScan(tn, i + 1, if IsLetter(tn[i]) then [tn[i]] else value)
  }

  predicate NoLetterIn(tn: string, from: nat)
  {
    forall j | from <= j < |tn| :: !IsLetter(tn[j])
  }

  /** The scan from i keeps what it holds iff no letter follows, and otherwise yields the last letter. */
  lemma {:induction false} LetterScanLast(tn: string, i: nat, value: string)
    requires i <= |tn|
    ensures NoLetterIn(tn, i) ==> LetterScan(tn, i, value) == value
    ensures !NoLetterIn(tn, i) ==> exists j | i <= j < |tn| ::
      IsLetter(tn[j]) && NoLetterIn(tn, j + 1) && LetterScan(tn, i, value) == [tn[j]]
    decreases |tn| - i
  {
    if i < |tn| {
      var next := if IsLetter(tn[i]) then [tn[i]] else value;
      LetterScanLast(tn, i + 1, next);
      if NoLetterIn(tn, i + 1) && IsLetter(tn[i]) {
        assert IsLetter(tn[i]) && NoLetterIn(tn, i + 1) && LetterScan(tn, i, value) == [tn[i]];
      }
    }
  }

  /**
   * The reference letter is empty exactly for the first dimension or a
   * nucleus name without letters; otherwise it is the last letter of the name.
   */
  lemma {:induction false} RefValueIsLastLetter(iDim: int, tn: string)
    ensures RefValue(iDim, tn) == "" <==> iDim == 0 || NoLetterIn(tn, 0)
    ensures iDim != 0 && !NoLetterIn(tn, 0) ==> exists j | 0 <= j < |tn| ::
      IsLetter(tn[j]) && NoLetterIn(tn, j + 1) && RefValue(iDim, tn) == [tn[j]]
  {
    LetterScanLast(tn, 0, "");
  }

  // ----- the reference properties -----

  /** The rows of the reference table, in declaration order. */
  datatype DataProps = LABEL | TDSIZE | ACQSIZE | SF | SW | REF | SKIP

  function PropName(p: DataProps): string
  {
    match p
    case LABEL => "LABEL"
    case TDSIZE => "TDSIZE"
    case ACQSIZE => "ACQSIZE"
    case SF => "SF"
    case SW => "SW"
    case REF => "REF"
    case SKIP => "SKIP"
  }

  /** DataProps.valueOf: the property with exactly this name, if any. */
  function ValueOf(name: string): (r: Option<DataProps>)
    ensures r.Some? ==> PropName(r.value) == name
    ensures r.None? ==> forall p: DataProps :: PropName(p) != name
  {
    if name == "LABEL" then Some(LABEL)
    else if name == "TDSIZE" then Some(TDSIZE)
    else if name == "ACQSIZE" then Some(ACQSIZE)
    else if name == "SF" then Some(SF)
    else if name == "SW" then Some(SW)
    else if name == "REF" then Some(REF)
    else if name == "SKIP" then Some(SKIP)
    else None
  }

  // ----- writing a script line -----

  /**
   * Whether getPythonString writes a value bare: a value that is not empty,
   * does not end in a letter (which would let "1f" or "2D" parse as numbers)
   * and parses as a double, or one of the Python literals True and False;
   * never for LABEL.
   */
  predicate Unquoted(p: DataProps, value: string)
  {
    p != LABEL
    && ((|value| > 0 && !IsLetter(value[|value| - 1]) && IsJavaDouble(value)) || value == "False" || value == "True")
  }

  function Rendered(p: DataProps, value: string): string
  {
    if Unquoted(p, value) then value else "'" + value + "'"
  }

  function RenderedAll(p: DataProps, values: seq<string>): (r: seq<string>)
    ensures |r| == |values|
  {
    if |values| == 0 then [] else RenderedAll(p, values[..|values| - 1]) + [Rendered(p, values[|values| - 1])]
  }

  /** The line getPythonString writes: the lower-case property name and the rendered values of each dimension. */
  function PythonLine(p: DataProps, values: seq<string>, indent: string): string
  {
    indent + Lower(PropName(p)) + "(" + Join(RenderedAll(p, values), ",") + ")"
  }

  /**
   * getPythonString, for the values getCurrentValue gives for dimensions
   * 0..nDim-1: the line is built piece by piece as the source does.
   */
  method PythonString(p: DataProps, values: seq<string>, indent: string) returns (s: string)
    ensures s == PythonLine(p, values, indent)
  {
    s := indent;
    s := s + Lower(PropName(p));
    s := s + "(";
    var args := RenderArgs(p, values);
    s := s + args;
    s := s + ")";
  }

  /** The loop of getPythonString: the rendered values, separated by commas. */
  method RenderArgs(p: DataProps, values: seq<string>) returns (s: string)
    ensures s == Join(RenderedAll(p, values), ",")
  {
    s := "";
    var dim := 0;
    while dim < |values|
      invariant 0 <= dim <= |values|
      invariant s == Join(RenderedAll(p, values[..dim]), ",")
    {
      s := RenderNext(p, values, dim, s);
      dim := dim + 1;
    }
    assert values[..dim] == values;
  }

  /** One round of the getPythonString loop: a comma after the first value, then the rendered value. */
  method RenderNext(p: DataProps, values: seq<string>, dim: nat, s: string) returns (next: string)
    requires dim < |values| && s == Join(RenderedAll(p, values[..dim]), ",")
    ensures next == Join(RenderedAll(p, values[..dim + 1]), ",")
  {
    ghost var before := RenderedAll(p, values[..dim]);
    next := s;
    if dim > 0 {
      next := next + ",";
    }
    var text := RenderValue(p, values[dim]);
    next := next + text;
    RenderedStep(p, values, dim);
    JoinAppend(before, text, ",");
  }

  lemma {:induction false} RenderedStep(p: DataProps, values: seq<string>, dim: nat)
    requires dim < |values|
    ensures RenderedAll(p, values[..dim + 1]) == RenderedAll(p, values[..dim]) + [Rendered(p, values[dim])]
  {
    assert values[..dim + 1][..dim] == values[..dim];
  }

  /** One value of getPythonString: quoted unless it may stand bare. */
  method RenderValue(p: DataProps, value: string) returns (text: string)
    ensures text == Rendered(p, value)
  {
    var useString := true;
    if |value| > 0 && !IsLetter(value[|value| - 1]) {
      useString := !IsJavaDouble(value);
    }
    if value == "False" || value == "True" {
      useString := false;
    }
    if p == LABEL {
      useString := true;
    }
    if useString {
      text := "'" + value + "'";
    } else {
      text := value;
    }
  }

  /** Stripping one pair of surrounding quotes, as a reader of the script would. */
  function Unquote(a: string): string
  {
    if |a| >= 2 && a[0] == '\'' && a[|a| - 1] == '\'' then a[1..|a| - 1] else a
  }

  /** A text starting with a quote is no mantissa: those begin with a digit or the decimal point. */
  lemma {:induction false} QuoteNoMantissa(m: string)
    requires |m| > 0 && m[0] == '\''
    ensures !IsMantissa(m)
  {
    var k := FindChar(m, '.');
    if k < |m| {
      assert m[..k][0] == m[0];
    }
  }

  /** A text starting with a quote is no decimal literal. */
  lemma {:induction false} QuoteNoLiteral(u: string)
    requires |u| > 0 && u[0] == '\''
    ensures !IsDecimalLiteral(u)
  {
    var v := if IsTypeSuffix(u[|u| - 1]) then u[..|u| - 1] else u;
    if |v| > 0 {
      assert v[0] == '\'';
      var e := ExponentMark(v);
      if e == |v| {
        QuoteNoMantissa(v);
      } else {
        assert e > 0 && v[..e][0] == '\'';
        QuoteNoMantissa(v[..e]);
      }
    }
  }

  /** A bare value never starts with a quote. */
  lemma {:induction false} UnquotedStart(p: DataProps, value: string)
    requires Unquoted(p, value) && |value| > 0
    ensures value[0] != '\''
  {
    if value != "False" && value != "True" && value[0] == '\'' {
      var l := TrimLeft(value, IsJavaSpace);
      assert l == value;
      var t := JavaTrim(value);
      assert |t| > 0 && t[0] == '\'';
      assert Unsigned(t) == t;
      QuoteNoLiteral(t);
    }
  }

  /** Every value the writer renders reads back unchanged once its quotes are stripped. */
  lemma {:induction false} UnquoteRendered(p: DataProps, value: string)
    ensures Unquote(Rendered(p, value)) == value
  {
    if Unquoted(p, value) && |value| > 0 {
      UnquotedStart(p, value);
    }
  }

  // ----- reading a script header -----

  /**
   * How setDataFields splits a header line: NAME(args) with NAME upper-cased,
   * taken from the first '(' to a final ')'; other lines are skipped. Reading
   * the last character of an empty line throws.
   */
  function SplitCall(s: string): (r: Result<Option<(string, string)>>)
    ensures r.Err? <==> s == ""
  {
    if s == "" then Err(IndexOutOfBounds("String index out of range: -1"))
    else
      var index := FindChar(s, '(');
      if index < |s| && s[|s| - 1] == ')' then
        assert index < |s| - 1;
        Ok(Some((Upper(s[..index]), s[index + 1..|s| - 1])))
      else Ok(None)
  }

  predicate AllUpper(s: string) { forall i | 0 <= i < |s| :: 'A' <= s[i] <= 'Z' }

  lemma {:induction false} UpperLower(s: string)
    requires AllUpper(s)
    ensures Upper(Lower(s)) == s && '(' !in Lower(s)
  {
    assert forall i | 0 <= i < |s| :: Lower(s)[i] == LowerChar(s[i]);
  }

  lemma {:induction false} PropNameUpper(p: DataProps)
    ensures AllUpper(PropName(p))
  {
  }

  /** A call written as a lower-cased upper-case name, '(', arguments and ')' splits back into the two. */
  lemma {:induction false} SplitCallOf(name: string, args: string)
    requires AllUpper(name)
    ensures SplitCall(Lower(name) + "(" + args + ")") == Ok(Some((name, args)))
  {
    var lower := Lower(name);
    var s := lower + "(" + args + ")";
    UpperLower(name);
    assert s[..|lower|] == lower;
    assert s[|lower|] == '(';
    FindCharAt(s, '(', |lower|);
    assert s[|lower| + 1..|s| - 1] == args;
  }

  /** The header reader takes a line the writer produced apart into the property name and the written values. */
  lemma {:induction false} WrittenLineReads(p: DataProps, values: seq<string>)
    ensures SplitCall(PythonLine(p, values, "")) == Ok(Some((PropName(p), Join(RenderedAll(p, values), ","))))
  {
    PropNameUpper(p);
    assert PythonLine(p, values, "") == Lower(PropName(p)) + "(" + Join(RenderedAll(p, values), ",") + ")";
    SplitCallOf(PropName(p), Join(RenderedAll(p, values), ","));
  }

  /** A stored field value: text, an Integer, a Double or a Boolean property. */
  datatype PropValue = Text(text: string) | Whole(n: int) | Decimal(x: real) | Flag(b: bool)

  /**
   * The value setObjectValue(map, value, dim) stores for a property:
   * Integer.parseInt for the sizes, Double.parseDouble for the frequency and
   * sweep width, Boolean.parseBoolean of the lower-cased text for SKIP, and
   * the text itself otherwise.
   */
  function Converted(p: DataProps, value: string): Result<PropValue>
  {
    match p
    case TDSIZE => (match ParseInt(value) case None => Err(NumberFormat(value)) case Some(n) => Ok(Whole(n)))
    case ACQSIZE => (match ParseInt(value) case None => Err(NumberFormat(value)) case Some(n) => Ok(Whole(n)))
    case SF => (match ParseDouble(value) case None => Err(NumberFormat(value)) case Some(x) => Ok(Decimal(x)))
    case SW => (match ParseDouble(value) case None => Err(NumberFormat(value)) case Some(x) => Ok(Decimal(x)))
    case SKIP => Ok(Flag(Lower(value) == "true"))
    case _ => Ok(Text(value))
  }

  /** The key of a property's field for one dimension: the name followed by the dimension number. */
  function Key(p: DataProps, dim: nat): string { PropName(p) + NatToString(dim) }

  /** The conversions of a line's values, one per dimension. */
  function ConvertAll(p: DataProps, vals: seq<string>): (cs: seq<Result<PropValue>>)
    ensures |cs| == |vals|
  {
    seq(|vals|, i requires 0 <= i < |vals| => Converted(p, vals[i]))
  }

  /** The keys of a property's fields for dimensions 0..n-1. */
  function Keys(p: DataProps, n: nat): (ks: seq<string>)
    ensures |ks| == n
  {
    seq(n, d requires 0 <= d < n => Key(p, d))
  }

  /**
   * setObjectValue, given the outcome c of converting the value and the key
   * of the field: the value is converted first, then set on the property
   * stored under the key; a key with no property is a NullPointerException.
   */
  function SetObjectValue(m: map<string, PropValue>, key: string, c: Result<PropValue>): Result<map<string, PropValue>>
  {
    match c
    case Err(e) => Err(e)
    case Ok(v) => if key !in m then Err(NullPointer(key)) else Ok(m[key := v])
  }

  /** The converted values from position dim on stored under their keys, stopping at the first error. */
  function AssignFrom(m: map<string, PropValue>, keys: seq<string>, cs: seq<Result<PropValue>>, dim: nat): (map<string, PropValue>, Option<Error>)
    requires dim <= |cs| == |keys|
    decreases |cs| - dim
  {
    if dim == |cs| then (m, None)
    else match SetObjectValue(m, keys[dim], cs[dim])
      case Err(e) => (m, Some(e))
      case Ok(m') => AssignFrom(m', keys, cs, dim + 1)
  }

  /**
   * The loop of setObjectValue over the dimensions: each converted value in
   * turn is stored under its key, stopping at the first failure.
   */
  method AssignLoop(m: map<string, PropValue>, keys: seq<string>, cs: seq<Result<PropValue>>)
    returns (r: map<string, PropValue>, err: Option<Error>)
    requires |keys| == |cs|
    ensures (r, err) == AssignFrom(m, keys, cs, 0)
  {
    r := m;
    var dim := 0;
    while dim < |cs|
      invariant 0 <= dim <= |cs|
      invariant AssignFrom(r, keys, cs, dim) == AssignFrom(m, keys, cs, 0)
    {
      var next := SetObjectValue(r, keys[dim], cs[dim]);
      if next.Err? {
        return r, Some(next.error);
      }
      r := next.value;
      dim := dim + 1;
    }
    return r, None;
  }

  lemma {:induction false} KeyInjective(p: DataProps, d1: nat, d2: nat)
    requires Key(p, d1) == Key(p, d2)
    ensures d1 == d2
  {
    var n := |PropName(p)|;
    assert NatToString(d1) == Key(p, d1)[n..];
    assert NatToString(d2) == Key(p, d2)[n..];
    DigitsValueOfNatToString(d1);
    DigitsValueOfNatToString(d2);
  }

  /** Different dimensions have different keys. */
  lemma {:induction false} KeysDistinct(p: DataProps, n: nat)
    ensures forall i, j | 0 <= i < j < n :: Keys(p, n)[i] != Keys(p, n)[j]
  {
    forall i, j | 0 <= i < j < n ensures Keys(p, n)[i] != Keys(p, n)[j] {
      if Keys(p, n)[i] == Keys(p, n)[j] {
        KeyInjective(p, i, j);
      }
    }
  }

  /**
   * A successful assignment under distinct keys keeps the key set, stores
   * each converted value under its key, and leaves every other field as it was.
   */
  lemma {:induction false} AssignFromSets(m: map<string, PropValue>, keys: seq<string>, cs: seq<Result<PropValue>>, dim: nat)
    requires dim <= |cs| == |keys|
    requires forall i, j | dim <= i < j < |keys| :: keys[i] != keys[j]
    requires AssignFrom(m, keys, cs, dim).1 == None
    ensures var r := AssignFrom(m, keys, cs, dim).0;
      r.Keys == m.Keys
      && (forall d | dim <= d < |cs| :: cs[d].Ok? && keys[d] in r && r[keys[d]] == cs[d].value)
      && (forall k | k in m && k !in keys[dim..] :: r[k] == m[k])
    decreases |cs| - dim
  {
    if dim < |cs| {
      var m' := SetObjectValue(m, keys[dim], cs[dim]).value;
      AssignFromSets(m', keys, cs, dim + 1);
      var r := AssignFrom(m, keys, cs, dim).0;
      assert r == AssignFrom(m', keys, cs, dim + 1).0;
      assert keys[dim] !in keys[dim + 1..];
      forall k | k in m && k !in keys[dim..] ensures r[k] == m[k] {
        assert k != keys[dim];
        assert k !in keys[dim + 1..] by {
          assert keys[dim + 1..] == keys[dim..][1..];
        }
      }
    }
  }

  /** The settings a header line can change on the (unseen) chart processor. */
  datatype ChartSettings = ChartSettings(acqOrder: string, arraySizes: string, fixDSP: bool)

  /** What setDataFields reads into: the field properties and the chart processor settings. */
  datatype Fields = Fields(props: map<string, PropValue>, chart: ChartSettings)

  function UnknownProperty(name: string): Error { IllegalArgument("No enum constant DataProps." + name) }

  /**
   * One header line: ACQORDER, ACQARRAY and FIXDSP go to the chart processor,
   * any other name must be a property whose comma-separated arguments (read
   * by the given CSV parser) are assigned to dimensions 0, 1, ….
   */
  function ApplyLine(f: Fields, s: string, csv: string -> seq<string>): (r: (Fields, Option<Error>))
    ensures r.0.chart != f.chart ==>
              SplitCall(s).Ok? && SplitCall(s).value.Some? && r.0.props == f.props
              && SplitCall(s).value.value.0 in {"ACQORDER", "ACQARRAY", "FIXDSP"}
    ensures r.0.props != f.props ==>
              SplitCall(s).Ok? && SplitCall(s).value.Some? && r.0.chart == f.chart
              && ValueOf(SplitCall(s).value.value.0).Some?
    ensures SplitCall(s) == Ok(None) ==> r == (f, None)
  {
    match SplitCall(s)
    case Err(e) => (f, Some(e))
    case Ok(None) => (f, None)
    case Ok(Some((name, args))) =>
      if name == "ACQORDER" then (f.(chart := f.chart.(acqOrder := args)), None)
      else if name == "ACQARRAY" then (f.(chart := f.chart.(arraySizes := args)), None)
      else if name == "FIXDSP" then (f.(chart := f.chart.(fixDSP := args == "True")), None)
      else match ValueOf(name)
        case None => (f, Some(UnknownProperty(name)))
        case Some(p) =>
          var vals := csv(args);
          var (m, err) := AssignFrom(f.props, Keys(p, |vals|), ConvertAll(p, vals), 0);
          (f.(props := m), err)
  }

  /** The lines from position i on, stopping at the first error. */
  function ApplyFrom(f: Fields, lines: seq<string>, i: nat, csv: string -> seq<string>): (Fields, Option<Error>)
    requires i <= |lines|
    decreases |lines| - i
  {
    if i == |lines| then (f, None)
    else
      var (g, err) := ApplyLine(f, lines[i], csv);
      if err.Some? then (g, err) else ApplyFrom(g, lines, i + 1, csv)
  }

  /**
   * getSkip: false when there is no SKIP field for the dimension, otherwise
   * the stored Boolean (a field of another type fails the cast).
   */
  function GetSkip(m: map<string, PropValue>, iDim: string): Result<bool>
  {
    var key := "SKIP" + iDim;
    if key !in m then Ok(false)
    else match m[key]
      case Flag(b) => Ok(b)
      case _ => Err(ClassCast(key))
  }

  /** A property name is none of the chart settings' names and reads back as the property. */
  lemma {:induction false} PropertyNamed(p: DataProps)
    ensures ValueOf(PropName(p)) == Some(p)
    ensures PropName(p) != "ACQORDER" && PropName(p) != "ACQARRAY" && PropName(p) != "FIXDSP"
  {
  }

  /** A line naming a property assigns its converted arguments to the property's fields and nothing else. */
  lemma {:induction false} PropertyLine(f: Fields, s: string, p: DataProps, args: string, csv: string -> seq<string>)
    requires SplitCall(s) == Ok(Some((PropName(p), args)))
    ensures var a := AssignFrom(f.props, Keys(p, |csv(args)|), ConvertAll(p, csv(args)), 0);
      ApplyLine(f, s, csv) == (f.(props := a.0), a.1)
  {
    PropertyNamed(p);
  }

  /**
   * A line naming a chart setting sets it on the chart processor and nothing
   * else: ACQORDER the acquisition order, ACQARRAY the array sizes, FIXDSP
   * the DSP flag, which is on only for the argument "True".
   */
  lemma {:induction false} ChartLine(f: Fields, s: string, name: string, args: string, csv: string -> seq<string>)
    requires SplitCall(s) == Ok(Some((name, args)))
    ensures name == "ACQORDER" ==>
              ApplyLine(f, s, csv) == (Fields(f.props, ChartSettings(args, f.chart.arraySizes, f.chart.fixDSP)), None)
    ensures name == "ACQARRAY" ==>
              ApplyLine(f, s, csv) == (Fields(f.props, ChartSettings(f.chart.acqOrder, args, f.chart.fixDSP)), None)
    ensures name == "FIXDSP" ==>
              ApplyLine(f, s, csv) == (Fields(f.props, ChartSettings(f.chart.acqOrder, f.chart.arraySizes, args == "True")), None)
  {
  }

  /**
   * A line whose name is neither a chart setting nor a property fails in
   * DataProps.valueOf with IllegalArgument and changes nothing.
   */
  lemma {:induction false} UnknownNameLine(f: Fields, s: string, name: string, args: string, csv: string -> seq<string>)
    requires SplitCall(s) == Ok(Some((name, args)))
    requires name != "ACQORDER" && name != "ACQARRAY" && name != "FIXDSP"
    requires forall p: DataProps :: PropName(p) != name
    ensures ApplyLine(f, s, csv) == (f, Some(IllegalArgument("No enum constant DataProps." + name)))
  {
  }

  /** A SKIP(…) header line read without error sets each dimension's skip flag to whether its argument is "true" in any case. */
  lemma {:induction false} SkipLineSetsFlags(f: Fields, s: string, args: string, csv: string -> seq<string>, d: nat)
    requires SplitCall(s) == Ok(Some(("SKIP", args)))
    requires ApplyLine(f, s, csv).1 == None
    requires d < |csv(args)|
    ensures GetSkip(ApplyLine(f, s, csv).0.props, NatToString(d)) == Ok(Lower(csv(args)[d]) == "true")
  {
    var vals := csv(args);
    PropertyLine(f, s, SKIP, args, csv);
    KeysDistinct(SKIP, |vals|);
    var keys := Keys(SKIP, |vals|);
    var cs := ConvertAll(SKIP, vals);
    AssignFromSets(f.props, keys, cs, 0);
    assert keys[d] == "SKIP" + NatToString(d);
    assert cs[d] == Ok(Flag(Lower(vals[d]) == "true"));
  }

  /** A property line that names a missing field or a malformed number stops with an error and leaves the chart settings alone. */
  lemma {:induction false} PropertyLineFails(f: Fields, s: string, p: DataProps, args: string, csv: string -> seq<string>, d: nat)
    requires SplitCall(s) == Ok(Some((PropName(p), args)))
    requires d < |csv(args)|
    requires Key(p, d) !in f.props || Converted(p, csv(args)[d]).Err?
    ensures ApplyLine(f, s, csv).1.Some?
    ensures ApplyLine(f, s, csv).0.chart == f.chart
  {
    var vals := csv(args);
    PropertyLine(f, s, p, args, csv);
    var keys := Keys(p, |vals|);
    var cs := ConvertAll(p, vals);
    assert keys[d] == Key(p, d) && cs[d] == Converted(p, vals[d]);
    if AssignFrom(f.props, keys, cs, 0).1 == None {
      KeysDistinct(p, |vals|);
      AssignFromSets(f.props, keys, cs, 0);
    }
  }

  /** The state setDataFields acts on: the field properties and the chart processor settings. */
  class RefManager {
    var objectPropertyMap: map<string, PropValue>
    var chart: ChartSettings

    ghost function Current(): Fields
      reads this
    {
      Fields(objectPropertyMap, chart)
    }

    constructor(chart: ChartSettings)
      ensures objectPropertyMap == map[] && this.chart == chart
    {
      objectPropertyMap := map[];
      this.chart := chart;
    }

    /** The inner loop of setDataFields: one value per dimension, in order. */
    method AssignValues(p: DataProps, parValues: seq<string>) returns (err: Option<Error>)
      modifies this`objectPropertyMap
      ensures (objectPropertyMap, err) == AssignFrom(old(objectPropertyMap), Keys(p, |parValues|), ConvertAll(p, parValues), 0)
    {
      var r;
      r, err := AssignLoop(objectPropertyMap, Keys(p, |parValues|), ConvertAll(p, parValues));
      objectPropertyMap := r;
    }

    /** setDataFields: the header lines in order, stopping at the first that throws. */
    method SetDataFields(headerList: seq<string>, csv: string -> seq<string>) returns (err: Option<Error>)
      modifies this
      ensures (Current(), err) == ApplyFrom(old(Current()), headerList, 0, csv)
    {
      var i := 0;
      while i < |headerList|
        invariant 0 <= i <= |headerList|
        invariant ApplyFrom(Current(), headerList, i, csv) == ApplyFrom(old(Current()), headerList, 0, csv)
      {
        var e := ReadHeaderLine(headerList[i], csv);
        if e.Some? {
          return e;
        }
        i := i + 1;
      }
      return None;
    }

    /** The body of setDataFields' loop: one header line. */
    method ReadHeaderLine(s: string, csv: string -> seq<string>) returns (err: Option<Error>)
      modifies this
      ensures (Current(), err) == ApplyLine(old(Current()), s, csv)
    {
      var call := SplitCall(s);
      if call.Err? {
        return Some(call.error);
      }
      if call.value.Some? {
        var (propName, args) := call.value.value;
        if propName == "ACQORDER" {
          chart := chart.(acqOrder := args);
        } else if propName == "ACQARRAY" {
          chart := chart.(arraySizes := args);
        } else if propName == "FIXDSP" {
          chart := chart.(fixDSP := args == "True");
        } else {
          var dataProps := ValueOf(propName);
          if dataProps.None? {
            return Some(UnknownProperty(propName));
          }
          err := AssignValues(dataProps.value, csv(args));
          return err;
        }
      }
      return None;
    }
  }

  // ----- acquisition-order choices -----

  function RemoveAt(xs: seq<nat>, i: nat): seq<nat>
    requires i < |xs|
  {
    xs[..i] + xs[i + 1..]
  }

  function PrependAll(x: nat, ps: seq<seq<nat>>): (r: seq<seq<nat>>)
    ensures |r| == |ps|
  {
    seq(|ps|, k requires 0 <= k < |ps| => [x] + ps[k])
  }

  /** Every ordering of xs: each element in turn first, followed by every ordering of the rest. */
  function Perms(xs: seq<nat>): seq<seq<nat>>
    decreases |xs|, 1
  {
    if |xs| == 0 then [[]] else PermsFrom(xs, 0)
  }

  function PermsFrom(xs: seq<nat>, i: nat): seq<seq<nat>>
    requires i <= |xs|
    decreases |xs|, 0, |xs| - i
  {
    if i == |xs| then [] else PrependAll(xs[i], Perms(RemoveAt(xs, i))) + PermsFrom(xs, i + 1)
  }

  function Fact(n: nat): nat { if n == 0 then 1 else n * Fact(n - 1) }

  lemma {:induction false} PermsCount(xs: seq<nat>)
    ensures |Perms(xs)| == Fact(|xs|)
    decreases |xs|, 1
  {
    if |xs| > 0 {
      PermsFromCount(xs, 0);
    }
  }

  lemma {:induction false} PermsFromCount(xs: seq<nat>, i: nat)
    requires 0 < |xs| && i <= |xs|
    ensures |PermsFrom(xs, i)| == (|xs| - i) * Fact(|xs| - 1)
    decreases |xs|, 0, |xs| - i
  {
    if i < |xs| {
      var rest := RemoveAt(xs, i);
      assert |rest| == |xs| - 1;
      PermsCount(rest);
      PermsFromCount(xs, i + 1);
      var front := PrependAll(xs[i], Perms(rest));
      assert |PermsFrom(xs, i)| == |front| + |PermsFrom(xs, i + 1)|;
      CountStep(|PermsFrom(xs, i)|, |front|, |PermsFrom(xs, i + 1)|, |xs| - (i + 1), |xs| - i, Fact(|xs| - 1));
    }
  }

  /** A block of f more orderings after k1 blocks of f makes k1 + 1 blocks. */
  lemma {:induction false} CountStep(total: int, a: int, b: int, k1: int, k: int, f: int)
    requires total == a + b && a == f && b == k1 * f && k == k1 + 1
    ensures total == k * f
  {
  }

  lemma {:induction false} RemoveAtMultiset(xs: seq<nat>, i: nat)
    requires i < |xs|
    ensures multiset(RemoveAt(xs, i)) + multiset{xs[i]} == multiset(xs)
  {
    assert xs == xs[..i] + [xs[i]] + xs[i + 1..];
  }

  /** Every listed ordering has the same elements as xs. */
  lemma {:induction false} PermsSound(xs: seq<nat>)
    ensures forall k | 0 <= k < |Perms(xs)| :: multiset(Perms(xs)[k]) == multiset(xs)
    decreases |xs|, 1
  {
    if |xs| > 0 {
      PermsFromSound(xs, 0);
    }
  }

  lemma {:induction false} PermsFromSound(xs: seq<nat>, i: nat)
    requires 0 < |xs| && i <= |xs|
    ensures forall k | 0 <= k < |PermsFrom(xs, i)| :: multiset(PermsFrom(xs, i)[k]) == multiset(xs)
    decreases |xs|, 0, |xs| - i
  {
    if i < |xs| {
      var rest := Perms(RemoveAt(xs, i));
      var front := PrependAll(xs[i], rest);
      var back := PermsFrom(xs, i + 1);
      PermsSound(RemoveAt(xs, i));
      PermsFromSound(xs, i + 1);
      RemoveAtMultiset(xs, i);
      var all := PermsFrom(xs, i);
      assert all == front + back;
      forall k | 0 <= k < |all| ensures multiset(all[k]) == multiset(xs) {
        if k < |front| {
          assert all[k] == [xs[i]] + rest[k];
          assert multiset(all[k]) == multiset{xs[i]} + multiset(rest[k]);
        } else {
          assert all[k] == back[k - |front|];
        }
      }
    }
  }

  /** Every ordering of xs is listed. */
  lemma {:induction false} PermsComplete(xs: seq<nat>, q: seq<nat>)
    requires multiset(q) == multiset(xs)
    ensures q in Perms(xs)
    decreases |xs|
  {
    if |xs| == 0 {
      assert |q| == |multiset(q)| == 0;
    } else {
      assert |q| == |multiset(q)| == |xs|;
      assert q[0] in multiset(q);
      assert q[0] in xs;
      var i :| 0 <= i < |xs| && xs[i] == q[0];
      TailPermutation(xs, q, i);
      PermsComplete(RemoveAt(xs, i), q[1..]);
      var rest := Perms(RemoveAt(xs, i));
      var k :| 0 <= k < |rest| && rest[k] == q[1..];
      assert PrependAll(xs[i], rest)[k] == q;
      PermsFromHas(xs, 0, i, q);
    }
  }

  /** Taking the first element off an ordering and a matching element out of xs leaves orderings of each other. */
  lemma {:induction false} TailPermutation(xs: seq<nat>, q: seq<nat>, i: nat)
    requires multiset(q) == multiset(xs) && i < |xs| && 0 < |q| && xs[i] == q[0]
    ensures multiset(q[1..]) == multiset(RemoveAt(xs, i))
  {
    RemoveAtMultiset(xs, i);
    assert q == [q[0]] + q[1..];
    calc {
      multiset(q[1..]);
      multiset(q) - multiset{q[0]};
      multiset(xs) - multiset{xs[i]};
      multiset(RemoveAt(xs, i));
    }
  }

  lemma {:induction false} PermsFromHas(xs: seq<nat>, j: nat, i: nat, q: seq<nat>)
    requires j <= i < |xs|
    requires q in PrependAll(xs[i], Perms(RemoveAt(xs, i)))
    ensures q in PermsFrom(xs, j)
    decreases i - j
  {
    if j < i {
      PermsFromHas(xs, j + 1, i, q);
    }
  }

  /** 1, 2, …, n. */
  function UpTo(n: nat): (r: seq<nat>)
    ensures |r| == n
  {
    if n == 0 then [] else UpTo(n - 1) + [n]
  }

  /** The dimension numbers of an ordering written one after another. */
  function DigitString(q: seq<nat>): string
  {
    if |q| == 0 then "" else DigitString(q[..|q| - 1]) + NatToString(q[|q| - 1])
  }

  /** The prefix bruker and rs2d data put before an order: the number of dimensions. */
  function OrderPrefix(nDim: nat, vendor: string): string
  {
    if vendor == "bruker" || vendor == "rs2d" then NatToString(nDim) else ""
  }

  /**
   * setupAcqOrder: for data with more than one dimension, one choice per
   * ordering of the indirect dimensions 1..nDim-1, prefixed by nDim for
   * bruker and rs2d data; none for 1-D data.
   */
  function AcqOrderChoices(nDim: nat, vendor: string): seq<string>
  {
    if nDim <= 1 then []
    else
      var ps := Perms(UpTo(nDim - 1));
      seq(|ps|, k requires 0 <= k < |ps| => OrderPrefix(nDim, vendor) + DigitString(ps[k]))
  }

  /** There is one choice per ordering: (nDim-1)! of them. */
  lemma {:induction false} AcqOrderChoicesCount(nDim: nat, vendor: string)
    requires nDim > 1
    ensures |AcqOrderChoices(nDim, vendor)| == Fact(nDim - 1)
  {
    PermsCount(UpTo(nDim - 1));
  }

  /** Every choice is the prefix followed by an ordering of 1..nDim-1. */
  lemma {:induction false} AcqOrderChoicesSound(nDim: nat, vendor: string, k: nat)
    requires nDim > 1 && k < |AcqOrderChoices(nDim, vendor)|
    ensures var q := Perms(UpTo(nDim - 1))[k];
      multiset(q) == multiset(UpTo(nDim - 1))
      && AcqOrderChoices(nDim, vendor)[k] == OrderPrefix(nDim, vendor) + DigitString(q)
  {
    PermsSound(UpTo(nDim - 1));
  }

  /** Every ordering of 1..nDim-1 behind the prefix is offered. */
  lemma {:induction false} AcqOrderChoicesComplete(nDim: nat, vendor: string, q: seq<nat>)
    requires nDim > 1 && multiset(q) == multiset(UpTo(nDim - 1))
    ensures OrderPrefix(nDim, vendor) + DigitString(q) in AcqOrderChoices(nDim, vendor)
  {
    var ps := Perms(UpTo(nDim - 1));
    PermsComplete(UpTo(nDim - 1), q);
    var k :| 0 <= k < |ps| && ps[k] == q;
    assert AcqOrderChoices(nDim, vendor)[k] == OrderPrefix(nDim, vendor) + DigitString(q);
  }

  lemma {:induction false} UpToRange(n: nat)
    ensures forall i | 0 <= i < n :: UpTo(n)[i] == i + 1
  {
    if n > 0 {
      UpToRange(n - 1);
      assert forall i | 0 <= i < n - 1 :: UpTo(n)[i] == UpTo(n - 1)[i];
    }
  }

  /** Single-digit numbers write one character each. */
  lemma {:induction false} DigitStringChars(q: seq<nat>)
    requires forall i | 0 <= i < |q| :: q[i] < 10
    ensures |DigitString(q)| == |q|
    ensures forall i | 0 <= i < |q| :: DigitString(q)[i] == DigitChar(q[i])
  {
    if |q| > 0 {
      DigitStringChars(q[..|q| - 1]);
      assert forall i | 0 <= i < |q| - 1 :: q[..|q| - 1][i] == q[i];
    }
  }

  /**
   * Every choice offered for bruker or rs2d data with at most 9 dimensions
   * survives the round trip through the acquisition order the RS2D and
   * JCAMP readers share: setAcqOrder of the choice, then RS2D's
   * getAcqOrderShort, gives the choice back. The Bruker reader's own
   * setAcqOrder is not part of this model.
   */
  lemma {:induction false} AcqOrderChoicesRoundTrip(nDim: nat, vendor: string, c: string,
                                                     schedule: Option<AcqOrder.Schedule>, current: Option<seq<Option<string>>>)
    requires 2 <= nDim <= 9 && (vendor == "bruker" || vendor == "rs2d")
    requires c in AcqOrderChoices(nDim, vendor)
    ensures AcqOrder.SetOutcome(nDim, schedule, current, [c]).1 == None
    ensures AcqOrder.SetOutcome(nDim, schedule, current, [c]).0.Some?
    ensures AcqOrder.Short(nDim, AcqOrder.SetOutcome(nDim, schedule, current, [c]).0.value) == Ok(c)
  {
    var cs := AcqOrderChoices(nDim, vendor);
    var k :| 0 <= k < |cs| && cs[k] == c;
    ChoiceShape(nDim, vendor, k);
    AcqOrder.AcqOrderRoundTrip(nDim, schedule, current, c);
  }

  /** An ordering of 1..n-1 has n-1 entries, each between 1 and n-1. */
  lemma {:induction false} OrderingRange(n: nat, q: seq<nat>)
    requires n >= 1 && multiset(q) == multiset(UpTo(n - 1))
    ensures |q| == n - 1 && forall i | 0 <= i < |q| :: 1 <= q[i] < n
  {
    var xs := UpTo(n - 1);
    UpToRange(n - 1);
    forall i | 0 <= i < |q| ensures 1 <= q[i] < n {
      assert q[i] in multiset(xs);
      var j :| 0 <= j < |xs| && xs[j] == q[i];
    }
    assert |q| == |multiset(q)| == |xs|;
  }

  /** A bruker or rs2d choice is nDim's digit followed by nDim - 1 other digits. */
  lemma {:induction false} ChoiceShape(nDim: nat, vendor: string, k: nat)
    requires 2 <= nDim <= 9 && (vendor == "bruker" || vendor == "rs2d")
    requires k < |AcqOrderChoices(nDim, vendor)|
    ensures var c := AcqOrderChoices(nDim, vendor)[k];
      |c| == nDim && c[0] == DigitChar(nDim) && forall i | 1 <= i < |c| :: c[i] != c[0]
  {
    var c := AcqOrderChoices(nDim, vendor)[k];
    var q := Perms(UpTo(nDim - 1))[k];
    assert multiset(q) == multiset(UpTo(nDim - 1)) && c == OrderPrefix(nDim, vendor) + DigitString(q) by {
      AcqOrderChoicesSound(nDim, vendor, k);
    }
    OrderingRange(nDim, q);
    assert OrderPrefix(nDim, vendor) == [DigitChar(nDim)];
    PrefixedDigits(nDim, q);
  }

  /** nDim's digit followed by the digits of numbers from 1 to nDim - 1 has no repeat of its first character. */
  lemma {:induction false} PrefixedDigits(n: nat, q: seq<nat>)
    requires 1 <= n <= 9 && |q| == n - 1 && forall i | 0 <= i < |q| :: 1 <= q[i] < n
    ensures var c := [DigitChar(n)] + DigitString(q);
      |c| == n && forall i | 1 <= i < |c| :: c[i] != c[0]
  {
    var c := [DigitChar(n)] + DigitString(q);
    DigitStringChars(q);
    forall i | 1 <= i < |c| ensures c[i] != c[0] {
      assert c[i] == DigitChar(q[i - 1]);
      assert DigitValue(c[i]) == q[i - 1] && DigitValue(c[0]) == n;
    }
  }

}
