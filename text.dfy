/**
 * Characters, strings and decimal numbers as the ingestion scripts use them:
 * Python's `str.strip()`, `str.lower()`, `in`, `startswith`/`endswith`,
 * `str(n)`, `int(digits)` and the `:02d` format.
 */
module Text {

  // ---------------------------------------------------------------- characters

  /** An ASCII decimal digit: what `\d` is taken to match. */
  predicate IsDigit(c: char) {
    '0' <= c <= '9'
  }

  predicate AllDigits(s: string) {
    forall i | 0 <= i < |s| :: IsDigit(s[i])
  }

  function DigitValue(c: char): (d: nat)
    requires IsDigit(c)
    ensures d < 10
  {
    c as int - '0' as int
  }

  function DigitChar(d: nat): (c: char)
    requires d < 10
    ensures IsDigit(c) && DigitValue(c) == d
  {
    ('0' as int + d) as char
  }

  /** Python's `str.isspace()`: what `strip()` removes and what `\s` matches. */
  predicate IsSpace(c: char) {
    c == ' ' || '\t' <= c <= '\r' || '\U{1c}' <= c <= '\U{1f}'
    || c == '\U{85}' || c == '\U{a0}' || c == '\U{1680}'
    || '\U{2000}' <= c <= '\U{200a}' || c == '\U{2028}' || c == '\U{2029}'
    || c == '\U{202f}' || c == '\U{205f}' || c == '\U{3000}'
  }

  predicate IsAsciiLetter(c: char) {
    'a' <= c <= 'z' || 'A' <= c <= 'Z'
  }

  /** A character of `\w`: ASCII letters and digits, `_`, and the Cyrillic letters. */
  predicate IsWordChar(c: char) {
    IsAsciiLetter(c) || IsDigit(c) || c == '_'
    || '\U{400}' <= c <= '\U{481}' || '\U{48a}' <= c <= '\U{4ff}'
  }

  /** `str.lower()` on one character, for the ASCII and basic Cyrillic capitals. */
  function LowerChar(c: char): char {
    if 'A' <= c <= 'Z' then (c as int + 32) as char
    else if '\U{410}' <= c <= '\U{42f}' then (c as int + 32) as char
    else if '\U{400}' <= c <= '\U{40f}' then (c as int + 80) as char
    else c
  }

  function Lower(s: string): (r: string)
    ensures |r| == |s|
    ensures forall i | 0 <= i < |s| :: r[i] == LowerChar(s[i])
  {
    seq(|s|, i requires 0 <= i < |s| => LowerChar(s[i]))
  }

  /** Lower-casing twice is lower-casing once. */
  lemma LowerIdempotent(s: string)
    ensures Lower(Lower(s)) == Lower(s)
  {
    assert forall i | 0 <= i < |s| :: LowerChar(LowerChar(s[i])) == LowerChar(s[i]);
  }

  /** A string with no capital that `LowerChar` maps is its own lower case. */
  lemma LowerOfLowercase(s: string)
    requires forall i | 0 <= i < |s| :: !('A' <= s[i] <= 'Z') && !('\U{400}' <= s[i] <= '\U{42f}')
    ensures Lower(s) == s
  {
  }

  // ---------------------------------------------------------------- substrings

  predicate StartsWith(s: string, prefix: string) {
    |prefix| <= |s| && s[..|prefix|] == prefix
  }

  predicate EndsWith(s: string, suffix: string) {
    |suffix| <= |s| && s[|s| - |suffix|..] == suffix
  }

  /** Python's `sub in s`. */
  predicate Contains(s: string, sub: string)
    decreases |s|
  {
    StartsWith(s, sub) || (|s| > 0 && Contains(s[1..], sub))
  }

  lemma {:induction false} ContainsPrefix(s: string, a: string, b: string)
    requires Contains(s, a + b)
    ensures Contains(s, a)
    decreases |s|
  {
    if StartsWith(s, a + b) {
      assert s[..|a|] == (a + b)[..|a|] == a;
    } else {
      ContainsPrefix(s[1..], a, b);
    }
  }

  /** `s.split(c)[0]`: everything before the first `c`. */
  function BeforeFirst(s: string, c: char): (r: string)
    ensures |r| <= |s| && r == s[..|r|]
    ensures c !in r
    ensures |r| < |s| ==> s[|r|] == c
  {
    if s == [] then []
    else if s[0] == c then []
    else [s[0]] + BeforeFirst(s[1..], c)
  }

  /** `s.rfind(c)`: the last index of `c`, or -1. */
  function LastIndexOf(s: string, c: char): (r: int)
    ensures -1 <= r < |s|
    ensures r >= 0 ==> s[r] == c
    ensures forall j | r < j < |s| :: s[j] != c
  {
    if s == [] then -1
    else if s[|s| - 1] == c then |s| - 1
    else LastIndexOf(s[..|s| - 1], c)
  }

  // ---------------------------------------------------------------- whitespace

  /** The first index at or after `i` that is not whitespace (or `|s|`). */
  function SkipSpaces(s: string, i: nat): (j: nat)
    requires i <= |s|
    ensures i <= j <= |s|
    ensures forall k | i <= k < j :: IsSpace(s[k])
    ensures j < |s| ==> !IsSpace(s[j])
    decreases |s| - i
  {
    if i < |s| && IsSpace(s[i]) then SkipSpaces(s, i + 1) else i
  }

  /** The start of the run of whitespace that ends just before `j`. */
  function BackSpaces(s: string, j: nat): (i: nat)
    requires j <= |s|
    ensures i <= j
    ensures forall k | i <= k < j :: IsSpace(s[k])
    ensures i > 0 ==> !IsSpace(s[i - 1])
  {
    if j > 0 && IsSpace(s[j - 1]) then BackSpaces(s, j - 1) else j
  }

  /** Python's `str.strip()`. */
  function Strip(s: string): (r: string)
    ensures |r| <= |s|
    ensures r == [] || (!IsSpace(r[0]) && !IsSpace(r[|r| - 1]))
    ensures r == [] <==> forall i | 0 <= i < |s| :: IsSpace(s[i])
    ensures s == [] || (!IsSpace(s[0]) && !IsSpace(s[|s| - 1])) ==> r == s
    ensures exists a, b :: 0 <= a <= b <= |s| && r == s[a..b]
              && (forall i | 0 <= i < a :: IsSpace(s[i])) && (forall i | b <= i < |s| :: IsSpace(s[i]))
  {
    var a := SkipSpaces(s, 0);
    var b := BackSpaces(s, |s|);
    if a < b then s[a..b]
    else
      assert s[0..0] == [];
      []
  }

  /** The characters of `s` that are not whitespace, in order. */
  function NonSpace(s: string): (r: string)
    ensures |r| <= |s|
    ensures forall k | 0 <= k < |r| :: !IsSpace(r[k])
  {
    if s == [] then []
    else (if IsSpace(s[0]) then [] else [s[0]]) + NonSpace(s[1..])
  }

  lemma {:induction false} NonSpaceAppend(x: string, y: string)
    ensures NonSpace(x + y) == NonSpace(x) + NonSpace(y)
  {
    if x == [] {
      assert x + y == y;
    } else {
      assert (x + y)[1..] == x[1..] + y;
      NonSpaceAppend(x[1..], y);
    }
  }

  lemma {:induction false} NonSpaceOfSpaces(x: string)
    requires forall k | 0 <= k < |x| :: IsSpace(x[k])
    ensures NonSpace(x) == []
  {
    if x != [] {
      NonSpaceOfSpaces(x[1..]);
    }
  }

  /** Stripping removes only whitespace. */
  lemma StripKeepsNonSpace(s: string)
    ensures NonSpace(Strip(s)) == NonSpace(s)
  {
    var a := SkipSpaces(s, 0);
    var b := BackSpaces(s, |s|);
    if a < b {
      NonSpaceOfSpaces(s[..a]);
      NonSpaceOfSpaces(s[b..]);
      NonSpaceOfSlice(s, a, b);
    } else {
      NonSpaceOfSpaces(s);
    }
  }

  /** Cutting off parts without non-whitespace characters keeps the non-whitespace characters. */
  lemma NonSpaceOfSlice(s: string, a: nat, b: nat)
    requires a <= b <= |s| && NonSpace(s[..a]) == [] && NonSpace(s[b..]) == []
    ensures NonSpace(s[a..b]) == NonSpace(s)
  {
    NonSpaceDropPrefix(s, a);
    var t := s[a..];
    assert t[..b - a] == s[a..b] && t[b - a..] == s[b..];
    NonSpaceDropSuffix(t, b - a);
  }

  lemma NonSpaceDropPrefix(s: string, a: nat)
    requires a <= |s| && NonSpace(s[..a]) == []
    ensures NonSpace(s[a..]) == NonSpace(s)
  {
    assert s == s[..a] + s[a..];
    NonSpaceAppend(s[..a], s[a..]);
  }

  lemma NonSpaceDropSuffix(s: string, b: nat)
    requires b <= |s| && NonSpace(s[b..]) == []
    ensures NonSpace(s[..b]) == NonSpace(s)
  {
    assert s == s[..b] + s[b..];
    NonSpaceAppend(s[..b], s[b..]);
  }

  /** A string with no whitespace but single spaces, none of them at either end. */
  predicate Collapsed(s: string) {
    (forall i | 0 <= i < |s| :: IsSpace(s[i]) ==> s[i] == ' ')
    && (forall i | 0 <= i < |s| - 1 :: !(s[i] == ' ' && s[i + 1] == ' '))
    && (s == [] || (s[0] != ' ' && s[|s| - 1] != ' '))
  }

  /** `re.sub(r'\s+', ' ', s[i..])`: every maximal run of whitespace becomes one space. */
  function CollapseRuns(s: string, i: nat): (r: string)
    requires i <= |s|
    ensures |r| <= |s| - i
    ensures r == [] <==> i == |s|
    ensures r != [] ==> (IsSpace(r[0]) <==> IsSpace(s[i]))
    ensures forall k | 0 <= k < |r| :: IsSpace(r[k]) ==> r[k] == ' '
    ensures forall k | 0 <= k < |r| - 1 :: !(IsSpace(r[k]) && IsSpace(r[k + 1]))
    decreases |s| - i
  {
    if i == |s| then []
    else if IsSpace(s[i]) then " " + CollapseRuns(s, SkipSpaces(s, i))
    else [s[i]] + CollapseRuns(s, i + 1)
  }

  /** Collapsing keeps every character that is not whitespace, in order. */
  lemma {:induction false} CollapseRunsKeepsNonSpace(s: string, i: nat)
    requires i <= |s|
    ensures NonSpace(CollapseRuns(s, i)) == NonSpace(s[i..])
    decreases |s| - i
  {
    if i < |s| {
      if IsSpace(s[i]) {
        var j := SkipSpaces(s, i);
        CollapseRunsKeepsNonSpace(s, j);
        NonSpaceAppend(" ", CollapseRuns(s, j));
        assert NonSpace(" ") == [];
        assert s[i..] == s[i..j] + s[j..];
        NonSpaceAppend(s[i..j], s[j..]);
        NonSpaceOfSpaces(s[i..j]);
      } else {
        CollapseRunsKeepsNonSpace(s, i + 1);
        NonSpaceAppend([s[i]], CollapseRuns(s, i + 1));
        assert s[i..] == [s[i]] + s[i + 1..];
        NonSpaceAppend([s[i]], s[i + 1..]);
      }
    }
  }

  /** A collapsed text passes through the run collapsing unchanged. */
  lemma {:induction false} CollapseRunsOfCollapsed(s: string, i: nat)
    requires i <= |s|
    ensures Collapsed(s) ==> CollapseRuns(s, i) == s[i..]
    decreases |s| - i
  {
    if Collapsed(s) && i < |s| {
      if IsSpace(s[i]) {
        assert s[i] == ' ';
        assert i + 1 < |s| ==> !IsSpace(s[i + 1]);
        assert SkipSpaces(s, i) == i + 1;
        CollapseRunsOfCollapsed(s, i + 1);
      } else {
        CollapseRunsOfCollapsed(s, i + 1);
      }
      assert s[i..] == [s[i]] + s[i + 1..];
    }
  }

  /** Stripping a text whose whitespace is single spaces leaves it collapsed. */
  lemma StripCollapses(c: string)
    requires forall k | 0 <= k < |c| :: IsSpace(c[k]) ==> c[k] == ' '
    requires forall k | 0 <= k < |c| - 1 :: !(IsSpace(c[k]) && IsSpace(c[k + 1]))
    ensures Collapsed(Strip(c))
  {
    var a := SkipSpaces(c, 0);
    var b := BackSpaces(c, |c|);
    if a < b {
      SliceSingleSpaced(c, a, b);
    }
  }

  /** A slice of a text whose whitespace is single spaces has only single spaces too. */
  lemma SliceSingleSpaced(c: string, a: nat, b: nat)
    requires a <= b <= |c|
    requires forall k | 0 <= k < |c| :: IsSpace(c[k]) ==> c[k] == ' '
    requires forall k | 0 <= k < |c| - 1 :: !(IsSpace(c[k]) && IsSpace(c[k + 1]))
    ensures var r := c[a..b];
      (forall k | 0 <= k < |r| :: IsSpace(r[k]) ==> r[k] == ' ')
      && (forall k | 0 <= k < |r| - 1 :: !(r[k] == ' ' && r[k + 1] == ' '))
  {
    var r := c[a..b];
    forall k | 0 <= k < |r|
      ensures IsSpace(r[k]) ==> r[k] == ' '
    {
      assert r[k] == c[a + k];
    }
    forall k | 0 <= k < |r| - 1
      ensures !(r[k] == ' ' && r[k + 1] == ' ')
    {
      assert r[k] == c[a + k] && r[k + 1] == c[a + k + 1];
    }
  }

  /** `re.sub(r'\s+', ' ', s).strip()`. */
  function CollapseSpaces(s: string): (r: string)
    ensures Collapsed(r)
    ensures |r| <= |s|
    ensures NonSpace(r) == NonSpace(s)
    ensures Collapsed(s) ==> r == s
  {
    var c := CollapseRuns(s, 0);
    var r := Strip(c);
    StripCollapses(c);
    CollapseRunsKeepsNonSpace(s, 0);
    StripKeepsNonSpace(c);
    assert s[0..] == s;
    CollapseRunsOfCollapsed(s, 0);
    r
  }

  // ---------------------------------------------------------------- decimal numbers

  /** Python's `str(n)` for a non-negative integer. */
  function NatToString(n: nat): (s: string)
    ensures |s| >= 1 && AllDigits(s)
  {
    if n < 10 then [DigitChar(n)] else NatToString(n / 10) + [DigitChar(n % 10)]
  }

  /** Python's `int(s)` for a string of ASCII digits (leading zeros allowed). */
  function Value(s: string): nat
    requires AllDigits(s)
  {
    if s == [] then 0 else Value(s[..|s| - 1]) * 10 + DigitValue(s[|s| - 1])
  }

  lemma {:induction false} ValueOfNatToString(n: nat)
    ensures Value(NatToString(n)) == n
  {
    if n >= 10 {
      var s := NatToString(n / 10);
      var t := s + [DigitChar(n % 10)];
      assert t[..|t| - 1] == s;
      ValueOfNatToString(n / 10);
    }
  }

  lemma NatToStringInjective(a: nat, b: nat)
    ensures NatToString(a) == NatToString(b) ==> a == b
  {
    ValueOfNatToString(a);
    ValueOfNatToString(b);
  }

  lemma {:induction false} NatToStringWidth(n: nat)
    ensures n < 10 ==> |NatToString(n)| == 1
    ensures 10 <= n < 100 ==> |NatToString(n)| == 2
    ensures 100 <= n < 1000 ==> |NatToString(n)| == 3
    ensures 1000 <= n < 10000 ==> |NatToString(n)| == 4
  {
    if n >= 10 {
      NatToStringWidth(n / 10);
    }
  }

  /** Python's `f"{n:02d}"` for a non-negative integer. */
  function Pad2(n: nat): (s: string)
    ensures AllDigits(s) && |s| >= 2
    ensures n < 100 ==> |s| == 2 && Value(s) == n
  {
    NatToStringWidth(n);
    ValueOfNatToString(n);
    if n < 10 then
      var s := "0" + NatToString(n);
      assert s[..1] == "0";
      s
    else
      NatToString(n)
  }

  lemma ValuePositive(s: string)
    requires |s| >= 1 && AllDigits(s) && s[0] != '0'
    ensures Value(s) >= 1
  {
    if |s| > 1 {
      ValuePositive(s[..|s| - 1]);
    }
  }

  lemma DigitCharOfValue(c: char)
    requires IsDigit(c)
    ensures DigitChar(DigitValue(c)) == c
  {
  }

  /** `str(int(s)) == s` for a digit string without a leading zero. */
  lemma {:induction false} NatToStringOfValue(s: string)
    requires |s| >= 1 && AllDigits(s) && (s[0] != '0' || |s| == 1)
    ensures NatToString(Value(s)) == s
  {
    var n := |s|;
    if n == 1 {
      assert s[..0] == [];
      DigitCharOfValue(s[0]);
    } else {
      var p := s[..n - 1];
      ValuePositive(p);
      NatToStringOfValue(p);
      DigitCharOfValue(s[n - 1]);
      assert Value(s) / 10 == Value(p) && Value(s) % 10 == DigitValue(s[n - 1]);
      assert s == p + [s[n - 1]];
    }
  }

  /** `f"{int(s):02d}" == s` for every two-digit string. */
  lemma Pad2OfValue(s: string)
    requires |s| == 2 && AllDigits(s)
    ensures Pad2(Value(s)) == s
  {
    assert s[..1][..0] == [];
    assert Value(s[..1]) == DigitValue(s[0]);
    if s[0] == '0' {
      assert Value(s) == DigitValue(s[1]);
      DigitCharOfValue(s[1]);
      assert s == "0" + [s[1]];
    } else {
      ValuePositive(s[..1]);
      NatToStringOfValue(s);
    }
  }

  // ---------------------------------------------------------------- sequences of strings

  /** `list.index`: the first position of `x`. */
  function IndexOf(s: seq<string>, x: string): (i: nat)
    requires x in s
    ensures i < |s| && s[i] == x && x !in s[..i]
  {
    if s[0] == x then 0 else 1 + IndexOf(s[1..], x)
  }

  lemma IndexOfExtend(s: seq<string>, y: string, x: string)
    requires x in s
    ensures IndexOf(s + [y], x) == IndexOf(s, x)
  {
    if s[0] != x {
      assert (s + [y])[1..] == s[1..] + [y];
      IndexOfExtend(s[1..], y, x);
    }
  }
}
