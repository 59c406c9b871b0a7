/**
 * Character and string helpers shared by the models: ASCII classes and case
 * mapping, the trimming rules of Java's String.trim and Python's str.strip,
 * one-character splitting as Python and Java do it, decimal formatting and the
 * integer and double recognisers of Integer.parseInt / Double.parseDouble.
 */
module Text {
  import opened Wrappers

  predicate IsDigit(c: char) { '0' <= c <= '9' }

  /** Character.isLetter, restricted to ASCII. */
  predicate IsLetter(c: char) { 'a' <= c <= 'z' || 'A' <= c <= 'Z' }

  predicate AllDigits(s: string) { forall i | 0 <= i < |s| :: IsDigit(s[i]) }

  function DigitValue(c: char): (d: nat)
    requires IsDigit(c)
    ensures d < 10
  {
    (c as int) - ('0' as int)
  }

  function DigitChar(d: nat): (c: char)
    requires d < 10
    ensures IsDigit(c) && DigitValue(c) == d
  {
    (('0' as int) + d) as char
  }

  function LowerChar(c: char): char
  {
    if 'A' <= c <= 'Z' then ((c as int) + 32) as char else c
  }

  function UpperChar(c: char): char
  {
    if 'a' <= c <= 'z' then ((c as int) - 32) as char else c
  }

  /** String.toLowerCase / str.lower on ASCII text. */
  function Lower(s: string): (r: string)
    ensures |r| == |s|
  {
    seq(|s|, i requires 0 <= i < |s| => LowerChar(s[i]))
  }

  function Upper(s: string): (r: string)
    ensures |r| == |s|
  {
    seq(|s|, i requires 0 <= i < |s| => UpperChar(s[i]))
  }

  /** String.equalsIgnoreCase on ASCII text. */
  predicate EqualsIgnoreCase(a: string, b: string) { Lower(a) == Lower(b) }

  predicate StartsWith(s: string, prefix: string)
  {
    |prefix| <= |s| && s[..|prefix|] == prefix
  }

  predicate EndsWith(s: string, suffix: string)
  {
    |suffix| <= |s| && s[|s| - |suffix|..] == suffix
  }

  /** String.contains for a substring. */
  predicate ContainsStr(s: string, t: string)
  {
    exists i | 0 <= i <= |s| - |t| :: OccursAt(s, t, i)
  }

  predicate OccursAt(s: string, t: string, i: nat)
  {
    i + |t| <= |s| && s[i..i + |t|] == t
  }

  /** The first index of c in s, or |s| when c does not occur. */
  function FindChar(s: string, c: char): (k: nat)
    ensures k <= |s|
    ensures k < |s| ==> s[k] == c
    ensures c !in s[..k]
    ensures k == |s| <==> c !in s
  {
    if |s| == 0 then 0
    else if s[0] == c then 0
    else
      var k := 1 + FindChar(s[1..], c);
      assert s[..k] == [s[0]] + s[1..][..k - 1];
      k
  }

  /** The last index of c in s, or -1 when c does not occur. */
  function FindLastChar(s: string, c: char): (k: int)
    ensures -1 <= k < |s|
    ensures 0 <= k ==> s[k] == c
    ensures c !in s[k + 1..]
    ensures k == -1 <==> c !in s
  {
    if |s| == 0 then -1
    else if s[|s| - 1] == c then |s| - 1
    else
      var k := FindLastChar(s[..|s| - 1], c);
      assert s[k + 1..] == s[..|s| - 1][k + 1..] + [s[|s| - 1]];
      k
  }

  /** The whitespace Java's String.trim removes: every code point up to U+0020. */
  predicate IsJavaSpace(c: char) { c <= ' ' }

  /** The ASCII characters Python's str.isspace accepts. */
  predicate IsPySpace(c: char) { 9 <= c as int <= 13 || 28 <= c as int <= 32 }

  /** The class \s of java.util.regex: space, tab, newline, vertical tab, form feed, return. */
  predicate IsRegexSpace(c: char) { 9 <= c as int <= 13 || c == ' ' }

  function TrimLeft(s: string, ws: char -> bool): (r: string)
    ensures |r| <= |s| && r == s[|s| - |r|..]
    ensures |r| > 0 ==> !ws(r[0])
    ensures forall i | 0 <= i < |s| - |r| :: ws(s[i])
  {
    if |s| > 0 && ws(s[0]) then TrimLeft(s[1..], ws) else s
  }

  function TrimRight(s: string, ws: char -> bool): (r: string)
    ensures |r| <= |s| && r == s[..|r|]
    ensures |r| > 0 ==> !ws(r[|r| - 1])
    ensures forall i | |r| <= i < |s| :: ws(s[i])
  {
    if |s| > 0 && ws(s[|s| - 1]) then TrimRight(s[..|s| - 1], ws) else s
  }

  lemma {:induction false} TrimUnchanged(s: string, ws: char -> bool)
    requires |s| > 0 && !ws(s[0]) && !ws(s[|s| - 1])
    ensures TrimRight(TrimLeft(s, ws), ws) == s
  {
  }

  /** Java's String.trim. */
  function JavaTrim(s: string): string { TrimRight(TrimLeft(s, IsJavaSpace), IsJavaSpace) }

  /** Python's str.strip() with no argument. */
  function Strip(s: string): string { TrimRight(TrimLeft(s, IsPySpace), IsPySpace) }

  /** Character.isWhitespace: the space separators other than the no-break ones, and the controls 9-13 and 28-31. */
  predicate IsJavaWhitespace(c: char)
  {
    var n := c as int;
    (9 <= n <= 13) || (28 <= n <= 32) || n == 0x1680 || (0x2000 <= n <= 0x2006) || (0x2008 <= n <= 0x200A)
    || n == 0x2028 || n == 0x2029 || n == 0x205F || n == 0x3000
  }

  /** String.isBlank: empty or white space only. */
  predicate IsBlank(s: string) { forall i | 0 <= i < |s| :: IsJavaWhitespace(s[i]) }

  /**
   * Python's str.split(sep) for a one-character separator: every piece, empty
   * ones included, so there is always at least one.
   */
  function Split(s: string, sep: char): (r: seq<string>)
    ensures |r| >= 1
    ensures sep in s ==> |r| >= 2
    ensures forall i | 0 <= i < |r| :: sep !in r[i]
    decreases |s|
  {
    var k := FindChar(s, sep);
    if k == |s| then [s] else [s[..k]] + Split(s[k + 1..], sep)
  }

  function Join(parts: seq<string>, sep: string): string
  {
    if |parts| == 0 then ""
    else if |parts| == 1 then parts[0]
    else parts[0] + sep + Join(parts[1..], sep)
  }

  /** Joining one more piece adds the separator and the piece at the end. */
  lemma {:induction false} JoinAppend(parts: seq<string>, x: string, sep: string)
    ensures Join(parts + [x], sep) == if parts == [] then x else Join(parts, sep) + sep + x
    decreases |parts|
  {
    if parts != [] {
      var ps := parts + [x];
      assert ps[0] == parts[0] && ps[1..] == parts[1..] + [x];
      if |parts| > 1 {
        JoinAppend(parts[1..], x, sep);
        var j := Join(parts[1..], sep);
        assert Join(ps, sep) == parts[0] + sep + (j + sep + x);
        assert parts[0] + sep + (j + sep + x) == (parts[0] + sep + j) + sep + x;
      }
    }
  }

  /** Joining the pieces of a split with the separator gives back the text. */
  lemma {:induction false} JoinSplit(s: string, sep: char)
    ensures Join(Split(s, sep), [sep]) == s
    decreases |s|
  {
    var k := FindChar(s, sep);
    if k < |s| {
      var rest := Split(s[k + 1..], sep);
      JoinSplit(s[k + 1..], sep);
      assert Split(s, sep) == [s[..k]] + rest;
      assert Join([s[..k]] + rest, [sep]) == s[..k] + [sep] + Join(rest, [sep]) by {
        assert ([s[..k]] + rest)[1..] == rest;
      }
      assert s == s[..k] + [sep] + s[k + 1..];
    }
  }

  /** Splitting a join of separator-free pieces gives back the pieces. */
  lemma {:induction false} SplitJoin(parts: seq<string>, sep: char)
    requires |parts| >= 1
    requires forall i | 0 <= i < |parts| :: sep !in parts[i]
    ensures Split(Join(parts, [sep]), sep) == parts
  {
    if |parts| > 1 {
      var s := Join(parts, [sep]);
      var tail := Join(parts[1..], [sep]);
      assert s == parts[0] + [sep] + tail;
      assert FindChar(s, sep) == |parts[0]| by {
        assert s[..|parts[0]|] == parts[0];
        assert s[|parts[0]|] == sep;
        FindCharAt(s, sep, |parts[0]|);
      }
      assert s[|parts[0]| + 1..] == tail;
      SplitJoin(parts[1..], sep);
    } else {
      assert FindChar(parts[0], sep) == |parts[0]|;
    }
  }

  lemma {:induction false} FindCharAt(s: string, c: char, k: nat)
    requires k < |s| && s[k] == c && c !in s[..k]
    ensures FindChar(s, c) == k
  {
    var f := FindChar(s, c);
  }

  function DropTrailingEmpty(parts: seq<string>): (r: seq<string>)
    ensures |r| <= |parts| && r == parts[..|r|]
    ensures |r| > 0 ==> r[|r| - 1] != ""
    ensures forall i | |r| <= i < |parts| :: parts[i] == ""
  {
    if |parts| > 0 && parts[|parts| - 1] == "" then DropTrailingEmpty(parts[..|parts| - 1]) else parts
  }

  /**
   * Java's String.split with a one-character regular expression: when the
   * separator occurs, trailing empty pieces are dropped; when it does not, the
   * whole text is the only piece.
   */
  function JavaSplit(s: string, sep: char): seq<string>
  {
    if sep !in s then [s] else DropTrailingEmpty(Split(s, sep))
  }

  /** Decimal digits of a natural number, most significant first, no leading zero. */
  function NatToString(n: nat): (r: string)
    ensures |r| >= 1 && AllDigits(r)
    ensures |r| > 1 ==> r[0] != '0'
    decreases n
  {
    if n < 10 then [DigitChar(n)] else NatToString(n / 10) + [DigitChar(n % 10)]
  }

  /** Integer.toString / Python str() of an integer. */
  function IntToString(n: int): string
  {
    if n < 0 then "-" + NatToString(-n) else NatToString(n)
  }

  function DigitsValue(s: string): nat
    requires AllDigits(s)
  {
    if |s| == 0 then 0 else DigitsValue(s[..|s| - 1]) * 10 + DigitValue(s[|s| - 1])
  }

  lemma {:induction false} DigitsValueOfNatToString(n: nat)
    ensures DigitsValue(NatToString(n)) == n
    decreases n
  {
    if n >= 10 {
      DigitsValueOfNatToString(n / 10);
      var s := NatToString(n);
      assert s[..|s| - 1] == NatToString(n / 10);
    }
  }

  const IntMin: int := -0x8000_0000
  const IntMax: int := 0x7fff_ffff

  /** Java int arithmetic: the value wrapped into the 32-bit two's-complement range. */
  function Wrap32(x: int): (r: int)
    ensures IntMin <= r <= IntMax
    ensures IntMin <= x <= IntMax ==> r == x
  {
    (x - IntMin) % 0x1_0000_0000 + IntMin
  }

  /** Wrapping forgets whole multiples of 2^32. */
  lemma {:induction false} WrapShift(x: int, k: int)
    ensures Wrap32(x + k * 0x1_0000_0000) == Wrap32(x)
  {
    var y := x - IntMin;
    var q, r := y / 0x1_0000_0000, y % 0x1_0000_0000;
    assert y + k * 0x1_0000_0000 == (q + k) * 0x1_0000_0000 + r;
  }

  /** A wrapped value differs from the value by a whole multiple of 2^32. */
  lemma {:induction false} WrapOffset(x: int) returns (k: int)
    ensures Wrap32(x) == x + k * 0x1_0000_0000
  {
    k := -((x - IntMin) / 0x1_0000_0000);
  }

  /** Java's int +: wrapping the operands first gives the same wrapped sum. */
  lemma {:induction false} WrapAdd(a: int, b: int)
    ensures Wrap32(Wrap32(a) + Wrap32(b)) == Wrap32(a + b)
  {
    var ka := WrapOffset(a);
    var kb := WrapOffset(b);
    assert Wrap32(a) + Wrap32(b) == a + b + (ka + kb) * 0x1_0000_0000;
    WrapShift(a + b, ka + kb);
  }

  /** Java's int *: wrapping a factor first gives the same wrapped product. */
  lemma {:induction false} WrapMul(a: int, d: int)
    ensures Wrap32(Wrap32(a) * d) == Wrap32(a * d)
  {
    var k := WrapOffset(a);
    assert Wrap32(a) * d == a * d + (k * d) * 0x1_0000_0000 by {
      assert Wrap32(a) * d == (a + k * 0x1_0000_0000) * d;
    }
    WrapShift(a * d, k * d);
  }

  /** The digits after an optional leading sign. */
  function Unsigned(s: string): string
  {
    if |s| > 0 && (s[0] == '-' || s[0] == '+') then s[1..] else s
  }

  /**
   * Java's Integer.parseInt: an optional sign, one or more ASCII digits, and a
   * value within 32 bits; anything else is a NumberFormatException (None).
   */
  function ParseInt(s: string): (r: Option<int>)
    ensures r.Some? ==> IntMin <= r.value <= IntMax
    ensures r.Some? ==> |Unsigned(s)| > 0 && AllDigits(Unsigned(s))
  {
    var body := Unsigned(s);
    if |body| == 0 || !AllDigits(body) then None
    else
      var v := if s[0] == '-' then -(DigitsValue(body) as int) else DigitsValue(body);
      if IntMin <= v <= IntMax then Some(v) else None
  }

  /** The text of an integer: a minus sign exactly for negatives, then the digits of its magnitude. */
  lemma {:induction false} IntToStringShape(n: int)
    ensures var s := IntToString(n); var m := if n < 0 then -n else n;
      |s| > 0 && (s[0] == '-' <==> n < 0) && Unsigned(s) == NatToString(m)
      && !IsPySpace(s[0]) && !IsPySpace(s[|s| - 1]) && DigitsValue(NatToString(m)) == m
  {
    var m := if n < 0 then -n else n;
    var digits := NatToString(m);
    var s := IntToString(n);
    assert IsDigit(digits[0]) && IsDigit(digits[|digits| - 1]);
    assert s[|s| - 1] == digits[|digits| - 1];
    if n < 0 {
      assert s == "-" + digits;
    } else {
      assert s == digits;
    }
    DigitsValueOfNatToString(m);
  }

  /** Integer.parseInt reads back what Integer.toString wrote. */
  lemma {:induction false} ParseIntToString(n: int)
    requires IntMin <= n <= IntMax
    ensures ParseInt(IntToString(n)) == Some(n)
  {
    IntToStringShape(n);
  }

  /**
   * Python's int() on a decimal literal: surrounding white space, an optional
   * sign and one or more digits, with no bound on the value.
   */
  function PyInt(s: string): (r: Option<int>)
  {
    var t := Strip(s);
    var body := Unsigned(t);
    if |body| == 0 || !AllDigits(body) then None
    else if t[0] == '-' then Some(-(DigitsValue(body) as int))
    else Some(DigitsValue(body))
  }

  /** int() reads back what str() wrote. */
  lemma {:induction false} PyIntToString(n: int)
    ensures PyInt(IntToString(n)) == Some(n)
  {
    var s := IntToString(n);
    IntToStringShape(n);
    TrimUnchanged(s, IsPySpace);
    assert Strip(s) == s;
  }

  /** Apache Commons StringUtils.isNumeric: non-empty and digits only (ASCII digits here). */
  predicate IsNumeric(s: string) { |s| > 0 && AllDigits(s) }

  /** Digits with at most one decimal point and at least one digit. */
  predicate IsMantissa(m: string)
  {
    var k := FindChar(m, '.');
    if k == |m| then |m| > 0 && AllDigits(m)
    else AllDigits(m[..k]) && AllDigits(m[k + 1..]) && |m| > 1
  }

  predicate IsExponent(x: string)
  {
    var d := Unsigned(x);
    |d| > 0 && AllDigits(d)
  }

  /** The first index of an exponent mark 'e' or 'E', or |v| when there is none. */
  function ExponentMark(v: string): (k: nat)
    ensures k <= |v|
    ensures k < |v| ==> v[k] == 'e' || v[k] == 'E'
  {
    if |v| == 0 || v[0] == 'e' || v[0] == 'E' then 0 else 1 + ExponentMark(v[1..])
  }

  lemma {:induction false} ExponentMarkAbsent(v: string)
    requires forall i | 0 <= i < |v| :: v[i] != 'e' && v[i] != 'E'
    ensures ExponentMark(v) == |v|
  {
    if |v| > 0 {
      ExponentMarkAbsent(v[1..]);
    }
  }

  predicate IsTypeSuffix(c: char) { c == 'f' || c == 'F' || c == 'd' || c == 'D' }

  /** A decimal floating literal with an optional exponent and an optional f/F/d/D suffix. */
  predicate IsDecimalLiteral(u: string)
  {
    var v := if |u| > 0 && IsTypeSuffix(u[|u| - 1]) then u[..|u| - 1] else u;
    var e := ExponentMark(v);
    if e == |v| then IsMantissa(v) else IsMantissa(v[..e]) && IsExponent(v[e + 1..])
  }

  /**
   * The texts Double.parseDouble accepts: after trimming, an optional sign and
   * then NaN, Infinity or a decimal literal.
   */
  predicate IsJavaDouble(s: string)
  {
    var u := Unsigned(JavaTrim(s));
    u == "NaN" || u == "Infinity" || IsDecimalLiteral(u)
  }

  /** Every integer literal is also a double literal. */
  lemma {:induction false} IntIsDouble(s: string)
    requires ParseInt(s).Some?
    ensures IsJavaDouble(s)
  {
    var body := Unsigned(s);
    assert JavaTrim(s) == s by {
      assert !IsJavaSpace(s[0]);
      assert !IsJavaSpace(s[|s| - 1]);
    }
    assert !IsTypeSuffix(body[|body| - 1]);
    assert ExponentMark(body) == |body| by {
      forall i | 0 <= i < |body| ensures body[i] != 'e' && body[i] != 'E' {
        assert IsDigit(body[i]);
      }
      ExponentMarkAbsent(body);
    }
    assert FindChar(body, '.') == |body| by {
      assert '.' !in body by {
        forall i | 0 <= i < |body| ensures body[i] != '.' {
          assert IsDigit(body[i]);
        }
      }
    }
  }

  function Pow10(e: nat): (r: real)
    ensures r >= 1.0
  {
    if e == 0 then 1.0 else 10.0 * Pow10(e - 1)
  }

  /** The value of digits with at most one decimal point. */
  function MantissaValue(m: string): real
    requires IsMantissa(m)
  {
    var k := FindChar(m, '.');
    if k == |m| then DigitsValue(m) as real
    else DigitsValue(m[..k]) as real + DigitsValue(m[k + 1..]) as real / Pow10(|m| - k - 1)
  }

  /** The power of ten an exponent part such as "-3" or "+12" stands for. */
  function ExponentScale(x: string): real
    requires IsExponent(x)
  {
    var p := Pow10(DigitsValue(Unsigned(x)));
    if x[0] == '-' then 1.0 / p else p
  }

  function DecimalValue(u: string): real
    requires IsDecimalLiteral(u)
  {
    var v := if |u| > 0 && IsTypeSuffix(u[|u| - 1]) then u[..|u| - 1] else u;
    var e := ExponentMark(v);
    if e == |v| then MantissaValue(v) else MantissaValue(v[..e]) * ExponentScale(v[e + 1..])
  }

  /**
   * The value Double.parseDouble gives a decimal literal, over the reals
   * (no rounding). NaN and Infinity have no real value and give None, as
   * does every text Double.parseDouble rejects.
   */
  function ParseDouble(s: string): (r: Option<real>)
    ensures r.Some? ==> IsJavaDouble(s)
  {
    TrimmedDouble(JavaTrim(s))
  }

  /** ParseDouble after the surrounding white space is gone. */
  function TrimmedDouble(t: string): (r: Option<real>)
    ensures r.Some? ==> IsDecimalLiteral(Unsigned(t))
  {
    var u := Unsigned(t);
    if !IsDecimalLiteral(u) then None
    else Some(if t[0] == '-' then -DecimalValue(u) else DecimalValue(u))
  }

  /** A literal of digits alone has the value of those digits. */
  lemma {:induction false} DigitsDecimalValue(body: string)
    requires |body| > 0 && AllDigits(body)
    ensures IsDecimalLiteral(body) && DecimalValue(body) == DigitsValue(body) as real
  {
    assert !IsTypeSuffix(body[|body| - 1]);
    assert ExponentMark(body) == |body| by {
      forall i | 0 <= i < |body| ensures body[i] != 'e' && body[i] != 'E' {
        assert IsDigit(body[i]);
      }
      ExponentMarkAbsent(body);
    }
    assert FindChar(body, '.') == |body| by {
      assert '.' !in body by {
        forall i | 0 <= i < |body| ensures body[i] != '.' {
          assert IsDigit(body[i]);
        }
      }
    }
  }

  /** Every text Integer.parseInt accepts reads as the same value with Double.parseDouble. */
  lemma {:induction false} ParseDoubleOfInt(s: string)
    requires ParseInt(s).Some?
    ensures ParseDouble(s) == Some(ParseInt(s).value as real)
  {
    assert JavaTrim(s) == s by {
      assert !IsJavaSpace(s[0]);
      assert !IsJavaSpace(s[|s| - 1]);
      TrimUnchanged(s, IsJavaSpace);
    }
    TrimmedDoubleOfInt(s);
  }

  lemma {:induction false} TrimmedDoubleOfInt(s: string)
    requires ParseInt(s).Some?
    ensures TrimmedDouble(s) == Some(ParseInt(s).value as real)
  {
    var u := Unsigned(s);
    DigitsDecimalValue(u);
    var x := DecimalValue(u);
    var d := DigitsValue(u);
    var sign := s[0] == '-';
    assert ParseInt(s) == Some(if sign then -(d as int) else d);
    assert TrimmedDouble(s) == Some(if sign then -x else x);
  }
}
