/**
 * The glob matcher (a port of Tcl's `string match`) and the NEF atom-name
 * wildcard matcher of the structure utilities.
 */
module Util {
  import opened Wrappers
  import opened Text

  // ---------------------------------------------------------------------------
  // stringMatch
  // ---------------------------------------------------------------------------

  /**
   * Scans a bracket set that starts at pattern position q for the string
   * character c. A member `a-b` is a range (in either order), any other member
   * a single character. Some(h) gives the position of the last pattern
   * character of the member that matched; None means the set ended (at `]` or
   * at the end of the pattern) without a match.
   */
  function ClassScan(p: string, q: nat, c: char): (r: Option<nat>)
    ensures r.Some? ==> q <= r.value < |p|
    decreases |p| - q
  {
    if q >= |p| || p[q] == ']' then None
    else if q + 1 < |p| && p[q + 1] == '-' then
      if q + 2 == |p| then None
      else if (p[q] <= c && p[q + 2] >= c) || (p[q] >= c && p[q + 2] <= c) then Some(q + 2)
      else ClassScan(p, q + 3, c)
    else if p[q] == c then Some(q)
    else ClassScan(p, q + 1, c)
  }

  /** The first position at or after q that holds `]`, or |p| when there is none. */
  function CloseBracket(p: string, q: nat): (e: nat)
    requires q <= |p|
    ensures q <= e <= |p|
    ensures e < |p| ==> p[e] == ']'
    ensures forall k | q <= k < e :: p[k] != ']'
    decreases |p| - q
  {
    if q == |p| || p[q] == ']' then q else CloseBracket(p, q + 1)
  }

  /**
   * Whether the rest of the string from i matches the rest of the pattern from
   * j. This is the meaning of the matcher, one case per special character.
   */
  predicate Matches(s: string, p: string, i: nat, j: nat)
    requires i <= |s| && j <= |p|
    decreases |p| - j, 0, 0
  {
    if j == |p| then i == |s|
    else if i == |s| && p[j] != '*' then false
    else if p[j] == '*' then
      j + 1 == |p| || StarFrom(s, p, i, j + 1)
    else if p[j] == '?' then Matches(s, p, i + 1, j + 1)
    else if p[j] == '[' then
      match ClassScan(p, j + 1, s[i])
      case None => false
      case Some(h) =>
        var e := CloseBracket(p, h + 1);
        Matches(s, p, i + 1, if e == |p| then |p| else e + 1)
    else if p[j] == '\\' then
      j + 1 < |p| && p[j + 1] == s[i] && Matches(s, p, i + 1, j + 2)
    else p[j] == s[i] && Matches(s, p, i + 1, j + 1)
  }

  /** Some suffix s[k..] with i <= k matches the pattern from j: what a `*` before j allows. */
  predicate StarFrom(s: string, p: string, i: nat, j: nat)
    requires i <= |s| && j <= |p|
    decreases |p| - j, 1, |s| - i
  {
    Matches(s, p, i, j) || (i < |s| && StarFrom(s, p, i + 1, j))
  }

  /** Util.stringMatch: does the whole string match the whole pattern? */
  method StringMatch(s: string, p: string) returns (r: bool)
    ensures r == Matches(s, p, 0, 0)
  {
    r := MatchFrom(s, p, 0, 0);
  }

  /**
   * The matcher on the suffixes s[si..] and p[pi..], the form in which the
   * source calls itself recursively for `*`. The loop walks both indices; the
   * flag `incr` says that both advance at the top of the next round.
   */
  method MatchFrom(s: string, p: string, si: nat, pi: nat) returns (r: bool)
    requires si <= |s| && pi <= |p|
    ensures r == Matches(s, p, si, pi)
    decreases |p| - pi, 1
  {
    var sIndex: nat, pIndex: nat := si, pi;
    var incr := false;
    while true
      invariant pi <= pIndex
      invariant incr ==> pIndex < |p| && sIndex < |s|
      invariant !incr ==> pIndex <= |p| && sIndex <= |s|
      invariant Matches(s, p, si, pi) ==
        if incr then Matches(s, p, sIndex + 1, pIndex + 1) else Matches(s, p, sIndex, pIndex)
      decreases |p| - pIndex + (if incr then 0 else 1)
    {
      if incr {
        pIndex := pIndex + 1;
        sIndex := sIndex + 1;
        incr := false;
      }
      if pIndex == |p| {
        return sIndex == |s|;
      }
      if sIndex == |s| && p[pIndex] != '*' {
        return false;
      }
      if p[pIndex] == '*' {
        MatchesStarStep(s, p, sIndex, pIndex);
        pIndex := pIndex + 1;
        if pIndex == |p| {
          return true;
        }
        r := MatchStar(s, p, sIndex, pIndex);
        return;
      }
      if p[pIndex] == '?' {
        MatchesAnyStep(s, p, sIndex, pIndex);
        incr := true;
        continue;
      }
      if p[pIndex] == '[' {
        var hit, last := MatchClass(s, p, sIndex, pIndex);
        MatchesClassStep(s, p, sIndex, pIndex);
        if !hit {
          return false;
        }
        pIndex := last;
        incr := true;
        continue;
      }
      if p[pIndex] == '\\' {
        MatchesEscapeStep(s, p, sIndex, pIndex);
        pIndex := pIndex + 1;
        if pIndex == |p| {
          return false;
        }
        if sIndex == |s| || p[pIndex] != s[sIndex] {
          return false;
        }
        incr := true;
        continue;
      }
      MatchesLiteralStep(s, p, sIndex, pIndex);
      if sIndex == |s| || p[pIndex] != s[sIndex] {
        return false;
      }
      incr := true;
    }
  }

  /** The meaning of a bracket set at pattern position j. */
  lemma {:induction false} MatchesClassStep(s: string, p: string, i: nat, j: nat)
    requires i < |s| && j < |p| && p[j] == '['
    ensures Matches(s, p, i, j) <==> (ClassScan(p, j + 1, s[i]).Some? &&
      var e := CloseBracket(p, ClassScan(p, j + 1, s[i]).value + 1);
      Matches(s, p, i + 1, if e == |p| then |p| else e + 1))
  {
  }

  /** The meaning of a star at pattern position j. */
  lemma {:induction false} MatchesStarStep(s: string, p: string, i: nat, j: nat)
    requires i <= |s| && j < |p| && p[j] == '*'
    ensures Matches(s, p, i, j) <==> j + 1 == |p| || StarFrom(s, p, i, j + 1)
  {
  }

  /** The meaning of a question mark at pattern position j. */
  lemma {:induction false} MatchesAnyStep(s: string, p: string, i: nat, j: nat)
    requires i < |s| && j < |p| && p[j] == '?'
    ensures Matches(s, p, i, j) <==> Matches(s, p, i + 1, j + 1)
  {
  }

  /** The meaning of a backslash escape at pattern position j. */
  lemma {:induction false} MatchesEscapeStep(s: string, p: string, i: nat, j: nat)
    requires i < |s| && j < |p| && p[j] == '\\'
    ensures Matches(s, p, i, j) <==> j + 1 < |p| && p[j + 1] == s[i] && Matches(s, p, i + 1, j + 2)
  {
  }

  /** The meaning of an ordinary character at pattern position j. */
  lemma {:induction false} MatchesLiteralStep(s: string, p: string, i: nat, j: nat)
    requires i < |s| && j < |p| && !IsSpecial(p[j])
    ensures Matches(s, p, i, j) <==> p[j] == s[i] && Matches(s, p, i + 1, j + 1)
  {
  }

  /**
   * The `*` branch of the matcher: tries every suffix of the string, shortest
   * skip first, against the pattern after the star.
   */
  method MatchStar(s: string, p: string, si: nat, pj: nat) returns (r: bool)
    requires si <= |s| && 0 < pj < |p|
    ensures r == StarFrom(s, p, si, pj)
    decreases |p| - pj + 1, 0
  {
    var sIndex := si;
    while true
      invariant si <= sIndex <= |s|
      invariant StarFrom(s, p, si, pj) == StarFrom(s, p, sIndex, pj)
      decreases |s| - sIndex
    {
      var m := MatchFrom(s, p, sIndex, pj);
      if m {
        return true;
      }
      if sIndex == |s| {
        return false;
      }
      sIndex := sIndex + 1;
    }
  }

  /**
   * The bracket branch of the matcher: scans the set opened at `open` for the
   * string character at sIndex and, on a hit, skips to the closing `]`. `last`
   * is the pattern position the main loop advances past: the `]`, or the last
   * pattern character when the set is never closed.
   */
  method MatchClass(s: string, p: string, sIndex: nat, open: nat) returns (hit: bool, last: nat)
    requires sIndex < |s| && open < |p| && p[open] == '['
    ensures hit <==> ClassScan(p, open + 1, s[sIndex]).Some?
    ensures hit ==> open < last < |p|
    ensures hit ==>
      var e := CloseBracket(p, ClassScan(p, open + 1, s[sIndex]).value + 1);
      last == if e == |p| then |p| - 1 else e
  {
    var found := ScanClass(p, open + 1, s[sIndex]);
    if found.None? {
      return false, 0;
    }
    var pIndex := SkipToClose(p, found.value + 1);
    if pIndex == |p| {
      pIndex := pIndex - 1;
    }
    return true, pIndex;
  }

  /** The scan of a bracket set for the character c, from pattern position q: the position of the member that admits it. */
  method ScanClass(p: string, q: nat, c: char) returns (r: Option<nat>)
    requires q <= |p|
    ensures r == ClassScan(p, q, c)
  {
    var pIndex := q;
    while true
      invariant q <= pIndex <= |p|
      invariant ClassScan(p, q, c) == ClassScan(p, pIndex, c)
      decreases |p| - pIndex
    {
      if pIndex == |p| || p[pIndex] == ']' {
        return None;
      }
      var ch1 := p[pIndex];
      if pIndex + 1 != |p| && p[pIndex + 1] == '-' {
        pIndex := pIndex + 2;
        if pIndex == |p| {
          return None;
        }
        var ch2 := p[pIndex];
        if (ch1 <= c && ch2 >= c) || (ch1 >= c && ch2 <= c) {
          return Some(pIndex);
        }
      } else if ch1 == c {
        return Some(pIndex);
      }
      pIndex := pIndex + 1;
    }
  }

  /** The skip to the closing `]` of a set, from pattern position q. */
  method SkipToClose(p: string, q: nat) returns (e: nat)
    requires q <= |p|
    ensures e == CloseBracket(p, q)
  {
    e := q;
    while e != |p| && p[e] != ']'
      invariant q <= e <= |p|
      invariant CloseBracket(p, q) == CloseBracket(p, e)
    {
      e := e + 1;
    }
  }

  /** The characters that have a meaning of their own in a pattern. */
  predicate IsSpecial(c: char) { c == '*' || c == '?' || c == '[' || c == '\\' }

  /** A pattern without special characters matches exactly the text equal to it. */
  lemma {:induction false} LiteralMatchesOnlyItself(s: string, p: string, i: nat, j: nat)
    requires i <= |s| && j <= |p|
    requires forall k | j <= k < |p| :: !IsSpecial(p[k])
    ensures Matches(s, p, i, j) <==> s[i..] == p[j..]
    decreases |p| - j
  {
    if j < |p| && i < |s| {
      LiteralMatchesOnlyItself(s, p, i + 1, j + 1);
      assert s[i..] == [s[i]] + s[i + 1..];
      assert p[j..] == [p[j]] + p[j + 1..];
    }
  }

  /** A pattern of n question marks matches exactly the strings of length n. */
  lemma {:induction false} QuestionMarksMatchLength(s: string, p: string, i: nat, j: nat)
    requires i <= |s| && j <= |p|
    requires forall k | j <= k < |p| :: p[k] == '?'
    ensures Matches(s, p, i, j) <==> |s| - i == |p| - j
    decreases |p| - j
  {
    if j < |p| && i < |s| {
      QuestionMarksMatchLength(s, p, i + 1, j + 1);
    }
  }

  /** The empty remainder of a string matches exactly the patterns made only of `*`. */
  lemma {:induction false} EmptyMatchesOnlyStars(s: string, p: string, j: nat)
    requires j <= |p|
    ensures Matches(s, p, |s|, j) <==> forall k | j <= k < |p| :: p[k] == '*'
    decreases |p| - j
  {
    if j < |p| && p[j] == '*' {
      EmptyMatchesOnlyStars(s, p, j + 1);
      if j + 1 < |p| {
        assert Matches(s, p, |s|, j) == Matches(s, p, |s|, j + 1);
      }
    }
  }

  /** A `*` followed by nothing matches any remainder of the string. */
  lemma {:induction false} TrailingStarMatchesAnything(s: string, p: string, i: nat)
    requires i <= |s| && |p| > 0 && p[|p| - 1] == '*'
    ensures Matches(s, p, i, |p| - 1)
  {
  }

  /**
   * The code accepts a bracket set that is never closed once one of its
   * members has matched: "[ab" matches "a" (and nothing longer).
   */
  lemma {:induction false} UnterminatedBracketAfterHit()
    ensures Matches("a", "[ab", 0, 0)
    ensures !Matches("ab", "[ab", 0, 0)
  {
    assert ClassScan("[ab", 1, 'a') == Some(1);
    assert CloseBracket("[ab", 2) == 3;
  }

  /** A bracket set that is never closed and whose members all miss fails. */
  lemma {:induction false} UnterminatedBracketMiss()
    ensures !Matches("c", "[ab", 0, 0)
  {
    assert ClassScan("[ab", 1, 'c') == None by {
      assert ClassScan("[ab", 3, 'c') == None;
      assert ClassScan("[ab", 2, 'c') == None;
    }
  }

  // ---------------------------------------------------------------------------
  // nefMatch
  // ---------------------------------------------------------------------------

  /** The wildcard a NEF pattern carries, and where it stands. */
  datatype NefWildcard =
    | Digits(at: nat)      // `x`, `y` or `%`: one or more digits (checked first)
    | NonSpace(at: nat)    // `*`: one or more non-space characters
    | HashDigits(at: nat)  // `#`: one or more digits
    | Exact                // no wildcard: plain equality

  /**
   * The wildcard of a pattern: the first `x` if there is one, else the first
   * `y`, else the first `%`; then `*`; then `#`.
   */
  function NefWildcardOf(pat: string): (w: NefWildcard)
    ensures !w.Exact? ==> w.at < |pat|
  {
    var pct := if 'x' in pat then FindChar(pat, 'x') else if 'y' in pat then FindChar(pat, 'y') else FindChar(pat, '%');
    if pct < |pat| then Digits(pct)
    else if '*' in pat then NonSpace(FindChar(pat, '*'))
    else if '#' in pat then HashDigits(FindChar(pat, '#'))
    else Exact
  }

  /**
   * A full, ASCII case-insensitive match of `prefix` followed by one or more
   * characters of the class `ok`; the prefix is taken literally. The source
   * compiles the prefix as a regular expression, which agrees with this only
   * when the prefix is RegexLiteral.
   */
  predicate PrefixThenSome(str: string, prefix: string, ok: char -> bool)
  {
    |str| > |prefix| && Lower(str[..|prefix|]) == Lower(prefix)
    && forall k | |prefix| <= k < |str| :: ok(str[k])
  }

  predicate IsNonSpace(c: char) { !IsRegexSpace(c) }

  /** A java.util.regex metacharacter outside a character class. */
  predicate IsRegexMeta(c: char)
  {
    c == '\\' || c == '.' || c == '[' || c == ']' || c == '{' || c == '}' || c == '(' || c == ')'
    || c == '*' || c == '+' || c == '?' || c == '^' || c == '$' || c == '|'
  }

  /** A text that java.util.regex reads as itself: it holds no metacharacter. */
  predicate RegexLiteral(s: string) { forall i | 0 <= i < |s| :: !IsRegexMeta(s[i]) }

  /** Util.nefMatch(String, String). */
  function NefMatch(str: string, pat: string): bool
  {
    match NefWildcardOf(pat)
    case Digits(k) => PrefixThenSome(str, pat[..k], IsDigit)
    case NonSpace(k) => PrefixThenSome(str, pat[..k], IsNonSpace)
    case HashDigits(k) => PrefixThenSome(str, pat[..k], IsDigit)
    case Exact => str == pat
  }

  /** Without a wildcard character the match is plain, case-sensitive equality. */
  lemma {:induction false} NefMatchExact(str: string, pat: string)
    requires 'x' !in pat && 'y' !in pat && '%' !in pat && '*' !in pat && '#' !in pat
    ensures NefMatch(str, pat) <==> str == pat
  {
  }

  /**
   * `%` accepts exactly the prefix (in any ASCII case) followed by one or more
   * digits, for a prefix the regular expression reads literally.
   */
  lemma {:induction false} NefMatchDigits(str: string, prefix: string, rest: string)
    requires 'x' !in prefix && 'y' !in prefix && '%' !in prefix && RegexLiteral(prefix)
    requires 'x' !in rest && 'y' !in rest
    ensures NefMatch(str, prefix + "%" + rest) <==>
      |str| > |prefix| && EqualsIgnoreCase(str[..|prefix|], prefix)
      && forall k | |prefix| <= k < |str| :: IsDigit(str[k])
  {
    var pat := prefix + "%" + rest;
    assert 'x' !in pat && 'y' !in pat;
    assert pat[|prefix|] == '%';
    assert pat[..|prefix|] == prefix;
    FindCharAt(pat, '%', |prefix|);
  }

  /** Whatever follows the wildcard is ignored. */
  lemma {:induction false} NefMatchIgnoresTail(str: string, prefix: string, rest1: string, rest2: string)
    requires 'x' !in prefix && 'y' !in prefix && '%' !in prefix
    requires 'x' !in rest1 && 'y' !in rest1 && 'x' !in rest2 && 'y' !in rest2
    ensures NefMatch(str, prefix + "%" + rest1) == NefMatch(str, prefix + "%" + rest2)
  {
    var pat1, pat2 := prefix + "%" + rest1, prefix + "%" + rest2;
    assert 'x' !in pat1 && 'y' !in pat1 && 'x' !in pat2 && 'y' !in pat2;
    assert pat1[|prefix|] == '%' && pat2[|prefix|] == '%';
    assert pat1[..|prefix|] == prefix && pat2[..|prefix|] == prefix;
    FindCharAt(pat1, '%', |prefix|);
    FindCharAt(pat2, '%', |prefix|);
  }

  /**
   * What nefMatch(Atom, String) needs to know about an atom: its name and index,
   * its methylene partner if it is a methylene hydrogen, and, for a hydrogen on
   * a methyl carbon, that carbon's index and the carbon's methyl partner.
   */
  datatype NefAtom = NefAtom(
    name: string,
    index: int,
    isMethylene: bool,
    methylenePartner: Option<int>,
    isHydrogen: bool,
    methylParent: Option<MethylCarbon>)

  datatype MethylCarbon = MethylCarbon(index: int, partner: Option<int>)

  /** The atom compared with its partner and the partner's index, following the source's choice. */
  function PartnerPair(a: NefAtom): (r: (int, Option<int>))
  {
    if a.isMethylene then (a.index, a.methylenePartner)
    else if a.isHydrogen && a.methylParent.Some? then (a.methylParent.value.index, a.methylParent.value.partner)
    else (a.index, None)
  }

  /** Util.nefMatch(Atom, String): `x` keeps the lower-indexed partner, `y` the other. */
  function NefMatchAtom(a: NefAtom, pat: string): (r: bool)
    ensures r ==> NefMatch(Lower(a.name), pat)
    ensures ('x' in pat || 'y' in pat) && PartnerPair(a).1.None? ==> !r
    ensures 'x' in pat && PartnerPair(a).1.Some? ==>
      (r <==> NefMatch(Lower(a.name), pat) && PartnerPair(a).0 < PartnerPair(a).1.value)
    ensures 'x' !in pat && 'y' in pat && PartnerPair(a).1.Some? ==>
      (r <==> NefMatch(Lower(a.name), pat) && PartnerPair(a).0 >= PartnerPair(a).1.value)
    ensures 'x' !in pat && 'y' !in pat ==> r == NefMatch(Lower(a.name), pat)
  {
    var result := NefMatch(Lower(a.name), pat);
    if result && ('x' in pat || 'y' in pat) then
      var (atom1, partner) := PartnerPair(a);
      if partner.Some? then
        var lessThan := atom1 < partner.value;
        if 'x' in pat then lessThan else !lessThan
      else false
    else result
  }
}
