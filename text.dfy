/**
 * The Kotlin standard-library string operations the core relies on:
 * prefix tests, `substringAfterLast`, `lowercase`, `isBlank`, `trim`,
 * `split(Regex("\\s+"))`, substring containment and decimal rendering of counts.
 */
module Text {
  import opened Wrappers

  predicate StartsWith(s: string, prefix: string)
  {
    |prefix| <= |s| && s[..|prefix|] == prefix
  }

  /** `sub` occurs somewhere in `s` as a contiguous run. */
  predicate Contains(s: string, sub: string)
  {
    StartsWith(s, sub) || (s != [] && Contains(s[1..], sub))
  }

  /** Index of the last occurrence of `c` in `s`, if any. */
  function LastIndexOf(s: string, c: char): (r: Option<nat>)
    ensures r.Some? ==> r.value < |s|
  {
    if s == [] then None
    else if s[|s| - 1] == c then Some(|s| - 1)
    else LastIndexOf(s[..|s| - 1], c)
  }

  /** `LastIndexOf` finds an occurrence with none after it, and reports none only when there is none. */
  lemma {:induction false} LastIndexOfFacts(s: string, c: char)
    ensures LastIndexOf(s, c).Some? ==>
      s[LastIndexOf(s, c).value] == c && c !in s[LastIndexOf(s, c).value + 1..]
    ensures LastIndexOf(s, c).None? ==> c !in s
    decreases |s|
  {
    if s != [] && s[|s| - 1] != c {
      var init := s[..|s| - 1];
      LastIndexOfFacts(init, c);
      assert s == init + [s[|s| - 1]];
      if LastIndexOf(init, c).Some? {
        var i := LastIndexOf(init, c).value;
        assert s[i + 1..] == init[i + 1..] + [s[|s| - 1]];
      }
    }
  }

  /** The last `c` of `p + [c] + e` is the one after `p` when `e` holds none. */
  lemma {:induction false} LastIndexOfAfterSplit(p: string, c: char, e: string)
    requires c !in e
    ensures LastIndexOf(p + [c] + e, c) == Some(|p|)
    decreases |e|
  {
    if e == [] {
      assert (p + [c] + e)[|p + [c] + e| - 1] == c;
    } else {
      var s := p + [c] + e;
      assert s[|s| - 1] == e[|e| - 1];
      assert s[..|s| - 1] == p + [c] + e[..|e| - 1];
      LastIndexOfAfterSplit(p, c, e[..|e| - 1]);
    }
  }

  /**
   * Kotlin's `substringAfterLast(delimiter, missingDelimiterValue)`: the text after the
   * last `delimiter`, or `missing` when the delimiter does not occur.
   */
  function SubstringAfterLast(s: string, delimiter: char, missing: string): string
  {
    match LastIndexOf(s, delimiter)
    case None => missing
    case Some(i) => s[i + 1..]
  }

  /** The text after the last delimiter holds no delimiter and completes `s`; with none, `missing`. */
  lemma SubstringAfterLastFacts(s: string, delimiter: char, missing: string)
    ensures delimiter in s ==>
      delimiter !in SubstringAfterLast(s, delimiter, missing) &&
      exists p :: s == p + [delimiter] + SubstringAfterLast(s, delimiter, missing)
    ensures delimiter !in s ==> SubstringAfterLast(s, delimiter, missing) == missing
  {
    LastIndexOfFacts(s, delimiter);
    if delimiter in s {
      var i := LastIndexOf(s, delimiter).value;
      assert s == s[..i] + [delimiter] + s[i + 1..];
    }
  }

  function ToLowerChar(c: char): char
  {
    if 'A' <= c <= 'Z' then (c as int + 32) as char else c
  }

  /** `lowercase()` for ASCII letters; every other character is kept as it is. */
  function ToLower(s: string): (r: string)
    ensures |r| == |s|
  {
    if s == [] then [] else [ToLowerChar(s[0])] + ToLower(s[1..])
  }

  /** `ToLower` maps each character on its own. */
  lemma {:induction false} ToLowerChars(s: string)
    ensures forall i :: 0 <= i < |s| ==> ToLower(s)[i] == ToLowerChar(s[i])
    decreases |s|
  {
    if s != [] {
      ToLowerChars(s[1..]);
    }
  }

  /** The characters Java's regular-expression class `\s` matches. */
  predicate IsRegexSpace(c: char)
  {
    c == ' ' || c == '\t' || c == '\n' || c == '\U{000B}' || c == '\U{000C}' || c == '\r'
  }

  /**
   * Kotlin's `Char.isWhitespace()` on the JVM: `Character.isWhitespace` or `Character.isSpaceChar`,
   * which includes the no-break spaces.
   */
  predicate IsWhitespace(c: char)
  {
    || IsRegexSpace(c)
    || '\U{001C}' <= c <= '\U{001F}'
    || c == '\U{00A0}' || c == '\U{1680}'
    || '\U{2000}' <= c <= '\U{200A}'
    || c == '\U{2028}' || c == '\U{2029}' || c == '\U{202F}' || c == '\U{205F}' || c == '\U{3000}'
  }

  predicate IsBlank(s: string)
  {
    forall i :: 0 <= i < |s| ==> IsWhitespace(s[i])
  }

  function TrimStart(s: string): (r: string)
    ensures |r| <= |s| && r == s[|s| - |r|..]
    ensures r == [] || !IsWhitespace(r[0])
    ensures IsBlank(s[..|s| - |r|])
  {
    if s == [] || !IsWhitespace(s[0]) then s
    else
      var r := TrimStart(s[1..]);
      assert s[..|s| - |r|] == [s[0]] + s[1..][..|s| - 1 - |r|];
      r
  }

  function TrimEnd(s: string): (r: string)
    ensures |r| <= |s| && r == s[..|r|]
    ensures r == [] || !IsWhitespace(r[|r| - 1])
    ensures IsBlank(s[|r|..])
  {
    if s == [] || !IsWhitespace(s[|s| - 1]) then s
    else
      var r := TrimEnd(s[..|s| - 1]);
      assert s[|r|..] == s[..|s| - 1][|r|..] + [s[|s| - 1]];
      r
  }

  /** Kotlin's `trim()`: leading and trailing whitespace removed. */
  function Trim(s: string): (r: string)
    ensures r == [] || (!IsWhitespace(r[0]) && !IsWhitespace(r[|r| - 1]))
    ensures r == [] <==> IsBlank(s)
  {
    var t := TrimStart(s);
    var r := TrimEnd(t);
    r
  }

  /** The longest prefix of `s` without a `\s` character. */
  function Word(s: string): (w: string)
    ensures |w| <= |s| && w == s[..|w|]
    ensures forall i :: 0 <= i < |w| ==> !IsRegexSpace(w[i])
    ensures |w| < |s| ==> IsRegexSpace(s[|w|])
  {
    if s == [] || IsRegexSpace(s[0]) then [] else [s[0]] + Word(s[1..])
  }

  /** `s` with its leading run of `\s` characters removed. */
  function SkipSpaces(s: string): (r: string)
    ensures |r| <= |s| && r == s[|s| - |r|..]
    ensures r == [] || !IsRegexSpace(r[0])
  {
    if s == [] || !IsRegexSpace(s[0]) then s else SkipSpaces(s[1..])
  }

  /** A `\s`-free prefix followed by a `\s` character (or nothing) is the word. */
  lemma {:induction false} WordBeforeSpace(w: string, t: string)
    requires forall i :: 0 <= i < |w| ==> !IsRegexSpace(w[i])
    requires t == [] || IsRegexSpace(t[0])
    ensures Word(w + t) == w
  {
    if w != [] {
      assert (w + t)[1..] == w[1..] + t;
      WordBeforeSpace(w[1..], t);
    }
  }

  /** Skipping a run of `\s` characters lands on whatever follows it. */
  lemma {:induction false} SkipSpaceRun(run: string, t: string)
    requires forall i :: 0 <= i < |run| ==> IsRegexSpace(run[i])
    requires t == [] || !IsRegexSpace(t[0])
    ensures SkipSpaces(run + t) == t
  {
    if run != [] {
      assert (run + t)[1..] == run[1..] + t;
      SkipSpaceRun(run[1..], t);
    }
  }

  /**
   * Kotlin's `split(Regex("\\s+"))`: the pieces between maximal runs of `\s`
   * characters, empty leading and trailing pieces included.
   */
  function SplitOnSpaceRuns(s: string): (parts: seq<string>)
    ensures |parts| >= 1
    decreases |s|
  {
    var w := Word(s);
    if |w| == |s| then [s] else [w] + SplitOnSpaceRuns(SkipSpaces(s[|w|..]))
  }

  function DigitChar(d: nat): char
    requires d < 10
  {
    "0123456789"[d]
  }

  /** Decimal rendering of a count, as string templates render an `Int`. */
  function NatToString(n: nat): (r: string)
    ensures |r| >= 1
    ensures forall i :: 0 <= i < |r| ==> '0' <= r[i] <= '9'
  {
    if n < 10 then [DigitChar(n)] else NatToString(n / 10) + [DigitChar(n % 10)]
  }

  /** Kotlin's decimal rendering of an integer, with a leading '-' when negative. */
  function IntToString(i: int): (r: string)
    ensures |r| >= 1
  {
    if i < 0 then "-" + NatToString(-i) else NatToString(i)
  }
}
