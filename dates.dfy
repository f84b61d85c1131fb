/**
 * `raw/fetch_dates.py`: turning the textual dates found on a resource's page
 * or in its URL into the canonical `dd.mm.yyyy` form, and stamping every
 * record of `data.json` with one.
 */
module FetchDates {
  import opened Wrappers
  import opened Text
  import opened Records

  /** The date given to a resource whose date could not be found. */
  const DefaultDate: string := "01.01.1970"

  // ---------------------------------------------------------------- the date regexes

  /**
   * The shape shared by the five date regexes: an optional leading literal,
   * three greedy digit groups `\d{lo,hi}` separated by two literals, and an
   * optional trailing literal. Every group is followed by a literal that is
   * not a digit, or ends the pattern, so the greedy choice is the only one the
   * regex engine's backtracking could succeed with.
   */
  datatype Shape = Shape(
    lead: Option<char>,
    lo1: nat, hi1: nat, sep1: char,
    lo2: nat, hi2: nat, sep2: char,
    lo3: nat, hi3: nat,
    trail: Option<char>)

  /** The three captured groups, converted with `int()`. */
  datatype Groups = Groups(first: nat, second: nat, third: nat)

  /** `(\d{4})-(\d{1,2})-(\d{1,2})`, an ISO 8601 calendar date prefix. */
  const IsoShape := Shape(None, 4, 4, '-', 1, 2, '-', 1, 2, None)
  /** `(\d{1,2})/(\d{1,2})/(\d{4})`, month first. */
  const UsShape := Shape(None, 1, 2, '/', 1, 2, '/', 4, 4, None)
  /** `(\d{1,2})\.(\d{1,2})\.(\d{4})`, day first. */
  const EuShape := Shape(None, 1, 2, '.', 1, 2, '.', 4, 4, None)
  /** `/(\d{4})/(\d{1,2})/(\d{1,2})/` in a URL path. */
  const UrlSlashShape := Shape(Some('/'), 4, 4, '/', 1, 2, '/', 1, 2, Some('/'))
  /** `/(\d{4})-(\d{2})-(\d{2})/` in a URL path. */
  const UrlDashShape := Shape(Some('/'), 4, 4, '-', 2, 2, '-', 2, 2, Some('/'))

  /** The length of the greedy run of at most `hi` digits starting at `i`. */
  function DigitRun(s: string, i: nat, hi: nat): (n: nat)
    requires i <= |s|
    ensures n <= hi && i + n <= |s|
    ensures forall k | i <= k < i + n :: IsDigit(s[k])
    ensures n < hi && i + n < |s| ==> !IsDigit(s[i + n])
    decreases hi
  {
    if hi == 0 || i == |s| || !IsDigit(s[i]) then 0 else 1 + DigitRun(s, i + 1, hi - 1)
  }

  datatype Capture = Capture(value: nat, end: nat)

  /** `(\d{lo,hi})` at position `i`. */
  function Group(s: string, i: nat, lo: nat, hi: nat): (g: Option<Capture>)
    requires i <= |s|
    ensures g.Some? ==> i + lo <= g.value.end <= i + hi && g.value.end <= |s|
    ensures g.Some? ==> AllDigits(s[i..g.value.end]) && g.value.value == Value(s[i..g.value.end])
  {
    var n := DigitRun(s, i, hi);
    if n < lo then None else Some(Capture(Value(s[i..i + n]), i + n))
  }

  /** An optional literal character at position `i`; the position after it. */
  function Literal(s: string, i: nat, c: Option<char>): (j: Option<nat>)
    requires i <= |s|
    ensures j.Some? ==> i <= j.value <= |s|
  {
    match c
    case None => Some(i)
    case Some(ch) => if i < |s| && s[i] == ch then Some(i + 1) else None
  }

  /** The regex of shape `p` matched at position `i` (`re.match` when `i` is 0). */
  function MatchAt(s: string, i: nat, p: Shape): Option<Groups>
    requires i <= |s|
  {
    var a :- Literal(s, i, p.lead);
    var g1 :- Group(s, a, p.lo1, p.hi1);
    var b :- Literal(s, g1.end, Some(p.sep1));
    var g2 :- Group(s, b, p.lo2, p.hi2);
    var c :- Literal(s, g2.end, Some(p.sep2));
    var g3 :- Group(s, c, p.lo3, p.hi3);
    var _ :- Literal(s, g3.end, p.trail);
    Some(Groups(g1.value, g2.value, g3.value))
  }

  /** `re.search`: the match at the first position, from `i` on, where there is one. */
  function Search(s: string, i: nat, p: Shape): Option<Groups>
    requires i <= |s|
    decreases |s| - i
  {
    var m := MatchAt(s, i, p);
    if m.Some? || i == |s| then m else Search(s, i + 1, p)
  }

  /** The match of shape `p` at each position of `s`; none past its end. */
  function MatchesOf(s: string, p: Shape): nat -> Option<Groups> {
    (j: nat) => if j <= |s| then MatchAt(s, j, p) else None
  }

  /** None of `results` from `i` up to, not including, `k` is a match. */
  predicate NoneBetween(results: nat -> Option<Groups>, i: nat, k: nat) {
    forall j | i <= j < k :: results(j).None?
  }

  lemma ExtendNone(results: nat -> Option<Groups>, i: nat, k: nat)
    requires i < k && results(i).None? && NoneBetween(results, i + 1, k)
    ensures NoneBetween(results, i, k)
  {
  }

  /** The search finds the match at the first position that has one, and fails only if none has. */
  lemma {:induction false} SearchIsFirstMatch(s: string, i: nat, p: Shape)
    requires i <= |s|
    ensures Search(s, i, p).Some? ==>
              exists k | i <= k <= |s| :: MatchAt(s, k, p) == Search(s, i, p) && NoneBetween(MatchesOf(s, p), i, k)
    ensures Search(s, i, p).None? ==> NoneBetween(MatchesOf(s, p), i, |s| + 1)
    decreases |s| - i
  {
    var results := MatchesOf(s, p);
    if MatchAt(s, i, p).Some? {
      assert NoneBetween(results, i, i);
    } else if i < |s| {
      SearchIsFirstMatch(s, i + 1, p);
      assert results(i).None?;
      assert Search(s, i, p) == Search(s, i + 1, p);
      if Search(s, i, p).Some? {
        var k :| i + 1 <= k <= |s| && MatchAt(s, k, p) == Search(s, i + 1, p) && NoneBetween(results, i + 1, k);
        ExtendNone(results, i, k);
      } else {
        ExtendNone(results, i, |s| + 1);
      }
    } else {
      assert results(i).None?;
      ExtendNone(results, i, i + 1);
    }
  }

  // ---------------------------------------------------------------- canonical dates

  /** The range guard every branch applies; the day is not checked against the month. */
  predicate InRange(day: nat, month: nat, year: nat) {
    1990 <= year <= 2030 && 1 <= month <= 12 && 1 <= day <= 31
  }

  /** `dd.mm.yyyy` with guarded fields. */
  predicate Canonical(s: string) {
    |s| == 10 && s[2] == '.' && s[5] == '.'
    && AllDigits(s[0..2]) && AllDigits(s[3..5]) && AllDigits(s[6..10])
    && InRange(Value(s[0..2]), Value(s[3..5]), Value(s[6..10]))
  }

  /** `f"{day:02d}.{month:02d}.{year}"`, and the fields read back from it. */
  function Format(day: nat, month: nat, year: nat): (s: string)
    requires InRange(day, month, year)
    ensures Canonical(s)
    ensures Value(s[0..2]) == day && Value(s[3..5]) == month && Value(s[6..10]) == year
  {
    NatToStringWidth(year);
    ValueOfNatToString(year);
    var s := Pad2(day) + "." + Pad2(month) + "." + NatToString(year);
    assert s[0..2] == Pad2(day) && s[3..5] == Pad2(month) && s[6..10] == NatToString(year);
    s
  }

  /** The range guard followed by the formatting, as each branch does it. */
  function Checked(day: nat, month: nat, year: nat): (r: Option<string>)
    ensures r.Some? <==> InRange(day, month, year)
  {
    if InRange(day, month, year) then Some(Format(day, month, year)) else None
  }

  function IsoDate(t: string): Option<string> {
    match MatchAt(t, 0, IsoShape)
    case None => None
    case Some(g) => Checked(g.third, g.second, g.first)
  }

  /** The US branch reads month, then day. */
  function UsDate(t: string): Option<string> {
    match MatchAt(t, 0, UsShape)
    case None => None
    case Some(g) => Checked(g.second, g.first, g.third)
  }

  function EuDate(t: string): Option<string> {
    match MatchAt(t, 0, EuShape)
    case None => None
    case Some(g) => Checked(g.first, g.second, g.third)
  }

  /**
   * `parse_date_string`: blank input gives `None`; otherwise the stripped text
   * is tried as ISO, then US, then European, each with the range guard.
   */
  function ParseDateString(raw: string): (r: Option<string>)
    ensures (forall i | 0 <= i < |raw| :: IsSpace(raw[i])) ==> r.None?
    ensures r.Some? ==> Canonical(r.value)
    // a stripped text that opens with none of the three shapes gives no date
    ensures r.Some? ==> MatchAt(Strip(raw), 0, IsoShape).Some? || MatchAt(Strip(raw), 0, UsShape).Some?
                        || MatchAt(Strip(raw), 0, EuShape).Some?
  {
    var t := Strip(raw);
    if t == [] then None
    else if IsoDate(t).Some? then IsoDate(t)
    else if UsDate(t).Some? then UsDate(t)
    else EuDate(t)
  }

  // ---------------------------------------------------------------- properties of the parser

  lemma {:induction false} DigitRunIs(s: string, i: nat, hi: nat, n: nat)
    requires i + n <= |s| && n <= hi
    requires forall k | i <= k < i + n :: IsDigit(s[k])
    requires n == hi || i + n == |s| || !IsDigit(s[i + n])
    ensures DigitRun(s, i, hi) == n
    decreases n
  {
    if n > 0 {
      DigitRunIs(s, i + 1, hi - 1, n - 1);
    }
  }

  lemma Value4(u: string)
    requires |u| == 4 && AllDigits(u)
    ensures Value(u) == 1000 * DigitValue(u[0]) + 100 * DigitValue(u[1])
                        + 10 * DigitValue(u[2]) + DigitValue(u[3])
  {
    assert u[..1][..0] == [] && u[..2][..1] == u[..1] && u[..3][..2] == u[..2] && u[..4] == u;
    assert Value(u[..1]) == DigitValue(u[0]);
    assert Value(u[..2]) == Value(u[..1]) * 10 + DigitValue(u[1]);
    assert Value(u[..3]) == Value(u[..2]) * 10 + DigitValue(u[2]);
  }

  lemma CanonicalMatches(s: string)
    requires Canonical(s)
    ensures MatchAt(s, 0, IsoShape).None?
    ensures MatchAt(s, 0, UsShape).None?
    ensures MatchAt(s, 0, EuShape) == Some(Groups(Value(s[0..2]), Value(s[3..5]), Value(s[6..10])))
  {
    assert forall k | 0 <= k < 2 :: s[k] == s[0..2][k];
    assert forall k | 3 <= k < 5 :: s[k] == s[3..5][k - 3];
    assert forall k | 6 <= k < 10 :: s[k] == s[6..10][k - 6];
    DigitRunIs(s, 0, 4, 2);
    DigitRunIs(s, 0, 2, 2);
    DigitRunIs(s, 3, 2, 2);
    DigitRunIs(s, 6, 4, 4);
  }

  lemma CanonicalIsFormat(s: string)
    requires Canonical(s)
    ensures Format(Value(s[0..2]), Value(s[3..5]), Value(s[6..10])) == s
  {
    Pad2OfValue(s[0..2]);
    Pad2OfValue(s[3..5]);
    Value4(s[6..10]);
    NatToStringOfValue(s[6..10]);
    assert s == s[0..2] + "." + s[3..5] + "." + s[6..10];
  }

  /** Every canonical date reads back as itself: it is taken by the European branch. */
  lemma CanonicalIsFixedPoint(s: string)
    requires Canonical(s)
    ensures ParseDateString(s) == Some(s)
  {
    assert Strip(s) == s;
    CanonicalMatches(s);
    CanonicalIsFormat(s);
  }

  /** `parse_date_string` is idempotent on its own results. */
  lemma ParseIdempotent(raw: string)
    ensures ParseDateString(raw).Some? ==>
              ParseDateString(ParseDateString(raw).value) == ParseDateString(raw)
  {
    if ParseDateString(raw).Some? {
      CanonicalIsFixedPoint(ParseDateString(raw).value);
    }
  }

  /** A ten-character string `aa?bb?cccc` whose three fields are digits. */
  predicate TenChars(s: string, sep: char) {
    |s| == 10 && s[2] == sep && s[5] == sep
    && AllDigits(s[0..2]) && AllDigits(s[3..5]) && AllDigits(s[6..10])
  }

  lemma UsMatches(s: string)
    requires TenChars(s, '/')
    ensures MatchAt(s, 0, IsoShape).None?
    ensures MatchAt(s, 0, UsShape) == Some(Groups(Value(s[0..2]), Value(s[3..5]), Value(s[6..10])))
  {
    assert forall k | 0 <= k < 2 :: s[k] == s[0..2][k];
    assert forall k | 3 <= k < 5 :: s[k] == s[3..5][k - 3];
    assert forall k | 6 <= k < 10 :: s[k] == s[6..10][k - 6];
    DigitRunIs(s, 0, 4, 2);
    DigitRunIs(s, 0, 2, 2);
    DigitRunIs(s, 3, 2, 2);
    DigitRunIs(s, 6, 4, 4);
  }

  lemma TenCharsOf(a: string, sep: char, b: string, c: string)
    requires |a| == 2 && |b| == 2 && |c| == 4 && AllDigits(a) && AllDigits(b) && AllDigits(c)
    ensures var s := a + [sep] + b + [sep] + c;
      TenChars(s, sep) && s[0..2] == a && s[3..5] == b && s[6..10] == c
  {
    var s := a + [sep] + b + [sep] + c;
    assert s[0..2] == a && s[3..5] == b && s[6..10] == c;
  }

  /** A US date `mm/dd/yyyy` comes out with day and month swapped. */
  lemma UsDateSwapsFields(month: nat, day: nat, year: nat)
    requires InRange(day, month, year)
    ensures ParseDateString(Pad2(month) + "/" + Pad2(day) + "/" + NatToString(year))
            == Some(Format(day, month, year))
  {
    NatToStringWidth(year);
    ValueOfNatToString(year);
    var s := Pad2(month) + "/" + Pad2(day) + "/" + NatToString(year);
    TenCharsOf(Pad2(month), '/', Pad2(day), NatToString(year));
    assert Strip(s) == s;
    UsMatches(s);
    assert UsDate(s) == Checked(day, month, year);
  }

  lemma IsoMatches(s: string)
    requires |s| >= 10 && s[4] == '-' && s[7] == '-'
    requires AllDigits(s[0..4]) && AllDigits(s[5..7]) && AllDigits(s[8..10])
    ensures MatchAt(s, 0, IsoShape) == Some(Groups(Value(s[0..4]), Value(s[5..7]), Value(s[8..10])))
  {
    DigitRunIs(s, 0, 4, 4);
    DigitRunIs(s, 5, 2, 2);
    DigitRunIs(s, 8, 2, 2);
  }

  /** A string with no whitespace at its ends, read as ISO whenever it matches as ISO. */
  lemma ParsedAsIso(s: string)
    requires s != [] && !IsSpace(s[0]) && !IsSpace(s[|s| - 1])
    requires IsoDate(s).Some?
    ensures ParseDateString(s) == IsoDate(s)
  {
  }

  /** An ISO timestamp is read by its `yyyy-mm-dd` prefix, whatever follows it. */
  lemma IsoPrefixWins(year: nat, month: nat, day: nat, rest: string)
    requires InRange(day, month, year)
    requires rest == [] || !IsSpace(rest[|rest| - 1])
    ensures ParseDateString(NatToString(year) + "-" + Pad2(month) + "-" + Pad2(day) + rest)
            == Some(Format(day, month, year))
  {
    NatToStringWidth(year);
    ValueOfNatToString(year);
    var y, m, d := NatToString(year), Pad2(month), Pad2(day);
    var s := y + "-" + m + "-" + d + rest;
    assert s[0..4] == y && s[5..7] == m && s[8..10] == d;
    assert !IsSpace(s[0]) && !IsSpace(s[|s| - 1]);
    IsoMatches(s);
    assert IsoDate(s) == Checked(day, month, year);
    ParsedAsIso(s);
  }

  // ---------------------------------------------------------------- the three branches on any field widths

  /**
   * Three digit fields `a`, `b`, `c` at the start of `s`, separated by the
   * characters `sep1` and `sep2`: the positions `s` holds them at.
   */
  predicate FieldsAt(s: string, a: string, sep1: char, b: string, sep2: char, c: string) {
    |a| + |b| + |c| + 2 <= |s|
    && s[0..|a|] == a && s[|a|] == sep1
    && s[|a| + 1..|a| + 1 + |b|] == b && s[|a| + 1 + |b|] == sep2
    && s[|a| + |b| + 2..|a| + |b| + 2 + |c|] == c
  }

  lemma FieldsOf(a: string, sep1: char, b: string, sep2: char, c: string, rest: string)
    ensures var s := a + [sep1] + b + [sep2] + c + rest;
      FieldsAt(s, a, sep1, b, sep2, c)
      && (|rest| > 0 ==> s[|a| + |b| + 2 + |c|] == rest[0])
  {
    var s := a + [sep1] + b + [sep2] + c + rest;
    assert s[0..|a|] == a;
    assert s[|a| + 1..|a| + 1 + |b|] == b;
    assert s[|a| + |b| + 2..|a| + |b| + 2 + |c|] == c;
  }

  /** `yyyy-m-d` with the month in `s[5..j]` and the day in `s[j + 1..e]`: the ISO regex captures them. */
  lemma IsoMatchesAt(s: string, j: nat, e: nat)
    requires 6 <= j <= 7 && j + 2 <= e <= j + 3 && e <= |s|
    requires s[4] == '-' && s[j] == '-'
    requires AllDigits(s[0..4]) && AllDigits(s[5..j]) && AllDigits(s[j + 1..e])
    requires e == j + 3 || e == |s| || !IsDigit(s[e])
    ensures MatchAt(s, 0, IsoShape) == Some(Groups(Value(s[0..4]), Value(s[5..j]), Value(s[j + 1..e])))
  {
    IsoGroupsAt(s, j, e);
  }

  lemma IsoGroupsAt(s: string, j: nat, e: nat)
    requires 6 <= j <= 7 && j + 2 <= e <= j + 3 && e <= |s|
    requires s[4] == '-' && s[j] == '-'
    requires AllDigits(s[0..4]) && AllDigits(s[5..j]) && AllDigits(s[j + 1..e])
    requires e == j + 3 || e == |s| || !IsDigit(s[e])
    ensures Group(s, 0, 4, 4) == Some(Capture(Value(s[0..4]), 4))
    ensures Group(s, 5, 1, 2) == Some(Capture(Value(s[5..j]), j))
    ensures Group(s, j + 1, 1, 2) == Some(Capture(Value(s[j + 1..e]), e))
  {
    GroupIs(s, 0, 4, 4, 4);
    GroupIs(s, 5, 1, 2, j - 5);
    GroupIs(s, j + 1, 1, 2, e - j - 1);
  }

  /** `m/d/yyyy` with the month in `s[0..e1]` and the day in `s[e1 + 1..e2]`: the US regex captures them. */
  lemma UsMatchesAt(s: string, e1: nat, e2: nat)
    requires 1 <= e1 <= 2 && e1 + 2 <= e2 <= e1 + 3 && e2 + 5 <= |s|
    requires s[e1] == '/' && s[e2] == '/'
    requires AllDigits(s[0..e1]) && AllDigits(s[e1 + 1..e2]) && AllDigits(s[e2 + 1..e2 + 5])
    ensures MatchAt(s, 0, UsShape) == Some(Groups(Value(s[0..e1]), Value(s[e1 + 1..e2]), Value(s[e2 + 1..e2 + 5])))
  {
    ShortGroupsAt(s, '/', e1, e2);
  }

  /** `d.m.yyyy` with the day in `s[0..e1]` and the month in `s[e1 + 1..e2]`: the European regex captures them. */
  lemma EuMatchesAt(s: string, e1: nat, e2: nat)
    requires 1 <= e1 <= 2 && e1 + 2 <= e2 <= e1 + 3 && e2 + 5 <= |s|
    requires s[e1] == '.' && s[e2] == '.'
    requires AllDigits(s[0..e1]) && AllDigits(s[e1 + 1..e2]) && AllDigits(s[e2 + 1..e2 + 5])
    ensures MatchAt(s, 0, EuShape) == Some(Groups(Value(s[0..e1]), Value(s[e1 + 1..e2]), Value(s[e2 + 1..e2 + 5])))
  {
    ShortGroupsAt(s, '.', e1, e2);
  }

  /** The three groups of `a?b?yyyy` with a separator `?` that is not a digit. */
  lemma ShortGroupsAt(s: string, sep: char, e1: nat, e2: nat)
    requires 1 <= e1 <= 2 && e1 + 2 <= e2 <= e1 + 3 && e2 + 5 <= |s|
    requires !IsDigit(sep) && s[e1] == sep && s[e2] == sep
    requires AllDigits(s[0..e1]) && AllDigits(s[e1 + 1..e2]) && AllDigits(s[e2 + 1..e2 + 5])
    ensures Group(s, 0, 1, 2) == Some(Capture(Value(s[0..e1]), e1))
    ensures Group(s, e1 + 1, 1, 2) == Some(Capture(Value(s[e1 + 1..e2]), e2))
    ensures Group(s, e2 + 1, 4, 4) == Some(Capture(Value(s[e2 + 1..e2 + 5]), e2 + 5))
  {
    GroupIs(s, 0, 1, 2, e1);
    GroupIs(s, e1 + 1, 1, 2, e2 - e1 - 1);
    GroupIs(s, e2 + 1, 4, 4, 4);
  }

  /**
   * A shape whose first group takes the leading run of `n` digits and then
   * finds it too short or not followed by its separator does not match.
   */
  lemma FirstGroupFails(s: string, p: Shape, n: nat)
    requires p.lead.None? && n <= |s| && n <= p.hi1
    requires forall k | 0 <= k < n :: IsDigit(s[k])
    requires n == p.hi1 || n == |s| || !IsDigit(s[n])
    requires n < p.lo1 || n == |s| || s[n] != p.sep1
    ensures MatchAt(s, 0, p).None?
  {
    DigitRunIs(s, 0, p.hi1, n);
  }

  /** `yyyy-m-d…` matches as ISO, and neither as US nor as European. */
  lemma IsoShapeOf(s: string, y: string, m: string, d: string, rest: string)
    requires |y| == 4 && 1 <= |m| <= 2 && 1 <= |d| <= 2 && AllDigits(y) && AllDigits(m) && AllDigits(d)
    requires |d| == 2 || rest == [] || !IsDigit(rest[0])
    requires s == y + "-" + m + "-" + d + rest
    ensures MatchAt(s, 0, IsoShape) == Some(Groups(Value(y), Value(m), Value(d)))
    ensures MatchAt(s, 0, UsShape).None? && MatchAt(s, 0, EuShape).None?
  {
    FieldsOf(y, '-', m, '-', d, rest);
    IsoMatchesAt(s, 5 + |m|, 6 + |m| + |d|);
    assert forall k | 0 <= k < 4 :: s[k] == y[k];
    FirstGroupFails(s, UsShape, 2);
    FirstGroupFails(s, EuShape, 2);
  }

  /** `m/d/yyyy…` matches as US, and neither as ISO nor as European. */
  lemma UsShapeOf(s: string, m: string, d: string, y: string, rest: string)
    requires 1 <= |m| <= 2 && 1 <= |d| <= 2 && |y| == 4 && AllDigits(m) && AllDigits(d) && AllDigits(y)
    requires s == m + "/" + d + "/" + y + rest
    ensures MatchAt(s, 0, UsShape) == Some(Groups(Value(m), Value(d), Value(y)))
    ensures MatchAt(s, 0, IsoShape).None? && MatchAt(s, 0, EuShape).None?
  {
    FieldsOf(m, '/', d, '/', y, rest);
    UsMatchesAt(s, |m|, |m| + 1 + |d|);
    OthersFail(s, m, '/');
  }

  /**
   * A text that opens with one or two digits and then a separator that is
   * not a digit matches without a lead neither as ISO nor as the shape with
   * the other separator.
   */
  lemma OthersFail(s: string, m: string, sep: char)
    requires 1 <= |m| <= 2 && AllDigits(m) && |m| < |s| && s[0..|m|] == m && s[|m|] == sep && !IsDigit(sep)
    ensures MatchAt(s, 0, IsoShape).None?
    ensures sep != '.' ==> MatchAt(s, 0, EuShape).None?
    ensures sep != '/' ==> MatchAt(s, 0, UsShape).None?
  {
    assert forall k | 0 <= k < |m| :: s[k] == m[k];
    FirstGroupFails(s, IsoShape, |m|);
    if sep != '.' {
      FirstGroupFails(s, EuShape, |m|);
    }
    if sep != '/' {
      FirstGroupFails(s, UsShape, |m|);
    }
  }

  /** `d.m.yyyy…` matches as European, and neither as ISO nor as US. */
  lemma EuShapeOf(s: string, d: string, m: string, y: string, rest: string)
    requires 1 <= |d| <= 2 && 1 <= |m| <= 2 && |y| == 4 && AllDigits(d) && AllDigits(m) && AllDigits(y)
    requires s == d + "." + m + "." + y + rest
    ensures MatchAt(s, 0, EuShape) == Some(Groups(Value(d), Value(m), Value(y)))
    ensures MatchAt(s, 0, IsoShape).None? && MatchAt(s, 0, UsShape).None?
  {
    FieldsOf(d, '.', m, '.', y, rest);
    EuMatchesAt(s, |d|, |d| + 1 + |m|);
    OthersFail(s, d, '.');
  }

  /**
   * `yyyy-m-d`, with one- or two-digit month and day and anything after it,
   * once stripped: the ISO branch decides, the guard giving `None` when a
   * field is out of range.
   */
  lemma IsoFieldsParsed(raw: string, y: string, m: string, d: string, rest: string)
    requires |y| == 4 && 1 <= |m| <= 2 && 1 <= |d| <= 2 && AllDigits(y) && AllDigits(m) && AllDigits(d)
    requires |d| == 2 || rest == [] || !IsDigit(rest[0])
    requires Strip(raw) == y + "-" + m + "-" + d + rest
    ensures ParseDateString(raw) == Checked(Value(d), Value(m), Value(y))
  {
    IsoShapeOf(Strip(raw), y, m, d, rest);
  }

  /**
   * `m/d/yyyy`, with one- or two-digit month and day, once stripped: month
   * and day are swapped into the result, or the guard gives `None`.
   */
  lemma UsFieldsParsed(raw: string, m: string, d: string, y: string, rest: string)
    requires 1 <= |m| <= 2 && 1 <= |d| <= 2 && |y| == 4 && AllDigits(m) && AllDigits(d) && AllDigits(y)
    requires Strip(raw) == m + "/" + d + "/" + y + rest
    ensures ParseDateString(raw) == Checked(Value(d), Value(m), Value(y))
  {
    UsShapeOf(Strip(raw), m, d, y, rest);
  }

  /**
   * `d.m.yyyy`, with one- or two-digit day and month, once stripped: the
   * European branch decides, the guard giving `None` when a field is out of range.
   */
  lemma EuFieldsParsed(raw: string, d: string, m: string, y: string, rest: string)
    requires 1 <= |d| <= 2 && 1 <= |m| <= 2 && |y| == 4 && AllDigits(d) && AllDigits(m) && AllDigits(y)
    requires Strip(raw) == d + "." + m + "." + y + rest
    ensures ParseDateString(raw) == Checked(Value(d), Value(m), Value(y))
  {
    EuShapeOf(Strip(raw), d, m, y, rest);
  }

  /** The digits of 2023. */
  lemma YearText()
    ensures NatToString(2023) == "2023" && Value("2023") == 2023
  {
    assert NatToString(20) == NatToString(2) + "0";
    assert NatToString(202) == NatToString(20) + "2";
    assert NatToString(2023) == NatToString(202) + "3" == "2023";
    ValueOfNatToString(2023);
  }

  /** The values of the short fields in the examples below. */
  lemma ShortValues()
    ensures Value("3") == 3 && Value("5") == 5 && Value("13") == 13 && Value("01") == 1
  {
    ValueOfNatToString(3);
    ValueOfNatToString(5);
    ValueOfNatToString(13);
    ValueOfNatToString(1);
    assert "01"[..1] == "0";
  }

  /** The canonical text of 5 March 2023, and the values of its fields. */
  lemma March5Facts()
    ensures Format(5, 3, 2023) == "05.03.2023"
    ensures Value("3") == 3 && Value("5") == 5 && Value("2023") == 2023
    ensures Value("13") == 13 && Value("01") == 1
  {
    YearText();
    ShortValues();
    assert Pad2(5) == "05" && Pad2(3) == "03";
  }

  /** `m/d/yyyy` with one-digit fields, inside whitespace. */
  lemma UsShortExample()
    ensures ParseDateString(" 3/5/2023\n") == Some("05.03.2023")
  {
    var raw := " 3/5/2023\n";
    assert SkipSpaces(raw, 0) == 1;
    assert BackSpaces(raw, |raw|) == |raw| - 1;
    assert Strip(raw) == "3" + "/" + "5" + "/" + "2023" + "";
    UsFieldsParsed(raw, "3", "5", "2023", "");
    March5Facts();
  }

  /** `yyyy-m-d` with one-digit fields and a time after the day. */
  lemma IsoShortExample()
    ensures ParseDateString("2023-3-5T10:00") == Some("05.03.2023")
  {
    var raw := "2023-3-5T10:00";
    assert Strip(raw) == raw == "2023" + "-" + "3" + "-" + "5" + "T10:00";
    IsoFieldsParsed(raw, "2023", "3", "5", "T10:00");
    March5Facts();
  }

  /** `d.m.yyyy` with one-digit fields. */
  lemma EuShortExample()
    ensures ParseDateString("5.3.2023") == Some("05.03.2023")
  {
    var raw := "5.3.2023";
    assert Strip(raw) == raw == "5" + "." + "3" + "." + "2023" + "";
    EuFieldsParsed(raw, "5", "3", "2023", "");
    March5Facts();
  }

  /** A month of 13 in the ISO shape gives no date. */
  lemma MonthOutOfRangeExample()
    ensures ParseDateString("2023-13-01") == None
  {
    var raw := "2023-13-01";
    assert Strip(raw) == raw == "2023" + "-" + "13" + "-" + "01" + "";
    IsoFieldsParsed(raw, "2023", "13", "01", "");
    March5Facts();
  }

  /** A text that does not open with a digit is no date. */
  lemma NoDigitNoDate(raw: string)
    requires Strip(raw) != [] && !IsDigit(Strip(raw)[0])
    ensures ParseDateString(raw) == None
  {
    var s := Strip(raw);
    FirstGroupFails(s, IsoShape, 0);
    FirstGroupFails(s, UsShape, 0);
    FirstGroupFails(s, EuShape, 0);
  }

  /** `hello` gives no date. */
  lemma WordExample()
    ensures ParseDateString("hello") == None
  {
    assert Strip("hello") == "hello";
    NoDigitNoDate("hello");
  }

  // ---------------------------------------------------------------- dates in URLs and pages

  function UrlDate(url: string, p: Shape): Option<string> {
    match Search(url, 0, p)
    case None => None
    case Some(g) => Checked(g.third, g.second, g.first)
  }

  /**
   * `extract_date_from_url`: the first `/yyyy/m/d/` in the URL if it passes the
   * range guard, else the first `/yyyy-mm-dd/` if it does, else `None`.
   */
  function ExtractDateFromUrl(url: string): (r: Option<string>)
    ensures r.Some? ==> Canonical(r.value)
    ensures UrlDate(url, UrlSlashShape).Some? ==> r == UrlDate(url, UrlSlashShape)
    ensures UrlDate(url, UrlSlashShape).None? ==> r == UrlDate(url, UrlDashShape)
    ensures r.None? <==> UrlDate(url, UrlSlashShape).None? && UrlDate(url, UrlDashShape).None?
  {
    var slashed := UrlDate(url, UrlSlashShape);
    if slashed.Some? then slashed else UrlDate(url, UrlDashShape)
  }

  /** A run of `n` digits, `lo <= n <= hi`, that the greedy group cannot extend, is captured whole. */
  lemma GroupIs(s: string, i: nat, lo: nat, hi: nat, n: nat)
    requires lo <= n <= hi && i + n <= |s| && AllDigits(s[i..i + n])
    requires n == hi || i + n == |s| || !IsDigit(s[i + n])
    ensures Group(s, i, lo, hi) == Some(Capture(Value(s[i..i + n]), i + n))
  {
    assert forall k | i <= k < i + n :: s[k] == s[i..i + n][k - i];
    DigitRunIs(s, i, hi, n);
  }

  lemma UrlSlashMatches(u: string, a: nat, b: nat)
    requires 7 <= a <= 8 && a + 2 <= b <= a + 3 && b < |u|
    requires u[0] == '/' && u[5] == '/' && u[a] == '/' && u[b] == '/'
    requires AllDigits(u[1..5]) && AllDigits(u[6..a]) && AllDigits(u[a + 1..b])
    ensures MatchAt(u, 0, UrlSlashShape) == Some(Groups(Value(u[1..5]), Value(u[6..a]), Value(u[a + 1..b])))
  {
    GroupIs(u, 1, 4, 4, 4);
    GroupIs(u, 6, 1, 2, a - 6);
    GroupIs(u, a + 1, 1, 2, b - a - 1);
  }

  /** Where the fields of `/y/m/d/rest` lie. */
  lemma SlashedParts(y: string, m: string, d: string, rest: string)
    requires |y| == 4
    ensures var u := "/" + y + "/" + m + "/" + d + "/" + rest;
            var a, b := 6 + |m|, 7 + |m| + |d|;
            b < |u| && u[1..5] == y && u[6..a] == m && u[a + 1..b] == d
            && u[0] == '/' && u[5] == '/' && u[a] == '/' && u[b] == '/'
  {
    var u := "/" + y + "/" + m + "/" + d + "/" + rest;
    var a, b := 6 + |m|, 7 + |m| + |d|;
    assert u[1..5] == y && u[6..a] == m && u[a + 1..b] == d;
  }

  /** A URL path that starts `/yyyy/m/d/` gives that date, month and day padded. */
  lemma UrlSlashedDate(year: nat, month: nat, day: nat, rest: string)
    requires InRange(day, month, year)
    ensures ExtractDateFromUrl("/" + NatToString(year) + "/" + NatToString(month) + "/"
                               + NatToString(day) + "/" + rest) == Some(Format(day, month, year))
  {
    NatToStringWidth(year);
    NatToStringWidth(month);
    NatToStringWidth(day);
    ValueOfNatToString(year);
    ValueOfNatToString(month);
    ValueOfNatToString(day);
    var y, m, d := NatToString(year), NatToString(month), NatToString(day);
    var u := "/" + y + "/" + m + "/" + d + "/" + rest;
    SlashedParts(y, m, d, rest);
    UrlSlashMatches(u, 6 + |m|, 7 + |m| + |d|);
    assert UrlDate(u, UrlSlashShape) == Checked(day, month, year);
  }

  /** Dates found in URLs are canonical, so they read back as themselves. */
  lemma UrlDateIsFixedPoint(url: string)
    ensures ExtractDateFromUrl(url).Some? ==>
              ParseDateString(ExtractDateFromUrl(url).value) == ExtractDateFromUrl(url)
  {
    if ExtractDateFromUrl(url).Some? {
      CanonicalIsFixedPoint(ExtractDateFromUrl(url).value);
    }
  }

  /**
   * What the date strategies of `extract_date_from_html` find in a fetched
   * page. The regexes over the HTML are not modelled; their matches are given.
   */
  datatype PageDates = PageDates(
    /** content of the first `article:published_time` meta tag */
    openGraph: Option<string>,
    /** for each meta name `date`, `pubdate`, `DC.date.issued`, `publish_date`,
        `article:published` that occurs, in that order: the content of its first tag */
    namedMeta: seq<string>,
    /** for each JSON-LD block holding a `datePublished`: its first value */
    jsonLd: seq<string>,
    /** every `datetime` attribute of a `time` element, in page order */
    timeTags: seq<string>)

  /** The first candidate that `parse` accepts, parsed. */
  function FirstAccepted(cands: seq<string>, parse: string -> Option<string>): (r: Option<string>)
    ensures r.None? <==> forall i | 0 <= i < |cands| :: parse(cands[i]).None?
    ensures r.Some? ==> exists i | 0 <= i < |cands| :: r == parse(cands[i])
                          && forall j | 0 <= j < i :: parse(cands[j]).None?
  {
    if cands == [] then None
    else if parse(cands[0]).Some? then parse(cands[0])
    else
      var r := FirstAccepted(cands[1..], parse);
      assert forall i | 1 <= i < |cands| :: cands[i] == cands[1..][i - 1];
      r
  }

  /** The first candidate that `parse_date_string` accepts, parsed. */
  function FirstParsed(cands: seq<string>): (r: Option<string>)
    ensures r.Some? ==> Canonical(r.value)
    ensures r.None? <==> forall i | 0 <= i < |cands| :: ParseDateString(cands[i]).None?
    ensures r.Some? ==> exists i | 0 <= i < |cands| :: r == ParseDateString(cands[i])
                          && forall j | 0 <= j < i :: ParseDateString(cands[j]).None?
  {
    FirstAccepted(cands, ParseDateString)
  }

  /** The first of two alternatives that found something. */
  function OrElse(a: Option<string>, b: Option<string>): (r: Option<string>)
    ensures r.Some? <==> a.Some? || b.Some?
    ensures a.Some? ==> r == a
  {
    if a.Some? then a else b
  }

  lemma {:induction false} FirstAcceptedAppend(a: seq<string>, b: seq<string>, parse: string -> Option<string>)
    ensures FirstAccepted(a + b, parse) == OrElse(FirstAccepted(a, parse), FirstAccepted(b, parse))
  {
    if a == [] {
      assert a + b == b;
    } else {
      var ab := a + b;
      assert ab[0] == a[0] && ab[1..] == a[1..] + b;
      if parse(a[0]).None? {
        FirstAcceptedAppend(a[1..], b, parse);
      }
    }
  }

  lemma FirstParsedAppend(a: seq<string>, b: seq<string>)
    ensures FirstParsed(a + b) == OrElse(FirstParsed(a), FirstParsed(b))
  {
    FirstAcceptedAppend(a, b, ParseDateString);
  }

  function OptionalSeq(o: Option<string>): seq<string> {
    if o.Some? then [o.value] else []
  }

  /**
   * `extract_date_from_html`: Open Graph, then the named meta tags, then
   * JSON-LD, then `time` elements, then the URL; the first that parses wins.
   */
  function ExtractDateFromHtml(page: PageDates, url: string): (r: Option<string>)
    ensures r.Some? ==> Canonical(r.value)
  {
    OrElse(FirstParsed(OptionalSeq(page.openGraph)),
      OrElse(FirstParsed(page.namedMeta),
        OrElse(FirstParsed(page.jsonLd),
          OrElse(FirstParsed(page.timeTags), ExtractDateFromUrl(url)))))
  }

  /** Every candidate of a page, in the order the strategies try them. */
  function Candidates(page: PageDates): seq<string> {
    OptionalSeq(page.openGraph) + page.namedMeta + page.jsonLd + page.timeTags
  }

  /** The strategy chain is "first parsable candidate, then the URL". */
  lemma HtmlChainIsFirstCandidate(page: PageDates, url: string)
    ensures ExtractDateFromHtml(page, url) == OrElse(FirstParsed(Candidates(page)), ExtractDateFromUrl(url))
  {
    var og := OptionalSeq(page.openGraph);
    FirstParsedAppend(og + page.namedMeta + page.jsonLd, page.timeTags);
    FirstParsedAppend(og + page.namedMeta, page.jsonLd);
    FirstParsedAppend(og, page.namedMeta);
  }

  lemma DefaultIsNotCanonical()
    ensures !Canonical(DefaultDate)
  {
    assert DefaultDate[6..10] == "1970";
    Value4("1970");
  }

  /**
   * `process_single_url`, with the fetched page as input (`None` when the fetch
   * failed): the page's date, else the URL's, else the default.
   */
  function ProcessSingleUrl(url: string, page: Option<PageDates>): (r: (string, string))
    ensures r.0 == url
    ensures r.1 == DefaultDate || Canonical(r.1)
    ensures r.1 == DefaultDate <==>
              ExtractDateFromUrl(url).None? && (page.None? || ExtractDateFromHtml(page.value, url).None?)
    ensures page.Some? && ExtractDateFromHtml(page.value, url).Some? ==>
              r.1 == ExtractDateFromHtml(page.value, url).value
    ensures (page.None? || ExtractDateFromHtml(page.value, url).None?) && ExtractDateFromUrl(url).Some? ==>
              r.1 == ExtractDateFromUrl(url).value
  {
    DefaultIsNotCanonical();
    var fromPage := if page.Some? then ExtractDateFromHtml(page.value, url) else None;
    if fromPage.Some? then (url, fromPage.value)
    else
      var fromUrl := ExtractDateFromUrl(url);
      if fromUrl.Some? then (url, fromUrl.value)
      else (url, DefaultDate)
  }

  // ---------------------------------------------------------------- stamping data.json

  /** `progress.get(url, DEFAULT_DATE)`. */
  function DateFor(progress: map<string, string>, link: string): string {
    if link in progress then progress[link] else DefaultDate
  }

  function Stamped(r: Record, progress: map<string, string>): Record {
    r.(date := Some(DateFor(progress, r.link)))
  }

  /** How many records `apply_dates` counts as found. */
  function CountFound(recs: seq<Record>, progress: map<string, string>): nat {
    if recs == [] then 0
    else CountFound(recs[..|recs| - 1], progress)
         + (if DateFor(progress, recs[|recs| - 1].link) != DefaultDate then 1 else 0)
  }

  /** Progress holding only what `process_single_url` can produce. */
  predicate GoodProgress(progress: map<string, string>) {
    forall u | u in progress :: progress[u] == DefaultDate || Canonical(progress[u])
  }

  /**
   * `apply_dates`: every record gets a `Date`, the one recorded for its link
   * or the default; the counters split the records between the two.
   */
  method ApplyDates(data: array<Record>, progress: map<string, string>) returns (found: nat, notFound: nat)
    modifies data
    ensures forall i | 0 <= i < data.Length :: data[i] == Stamped(old(data[i]), progress)
    ensures found == CountFound(old(data[..]), progress)
    ensures found + notFound == data.Length
  {
    ghost var before := data[..];
    found, notFound := 0, 0;
    var i := 0;
    while i < data.Length
      invariant 0 <= i <= data.Length
      invariant forall k | 0 <= k < i :: data[k] == Stamped(before[k], progress)
      invariant forall k | i <= k < data.Length :: data[k] == before[k]
      invariant found == CountFound(before[..i], progress)
      invariant found + notFound == i
    {
      var url := data[i].link;
      var date := if url in progress then progress[url] else DefaultDate;
      data[i] := data[i].(date := Some(date));
      assert before[..i + 1][..i] == before[..i];
      if date != DefaultDate {
        found := found + 1;
      } else {
        notFound := notFound + 1;
      }
      i := i + 1;
    }
    assert before[..data.Length] == before;
  }

  /** Stamping gives every record a date: a canonical one or the default. */
  lemma StampedDates(recs: seq<Record>, progress: map<string, string>)
    requires GoodProgress(progress)
    ensures forall i | 0 <= i < |recs| :: Stamped(recs[i], progress).date.Some?
              && var d := Stamped(recs[i], progress).date.value; d == DefaultDate || Canonical(d)
    ensures forall i | 0 <= i < |recs| :: recs[i].link !in progress ==>
              Stamped(recs[i], progress).date == Some(DefaultDate)
  {
  }

  // ---------------------------------------------------------------- the URLs still to fetch

  function Links(data: seq<Record>): (links: seq<string>)
    ensures |links| == |data| && forall i | 0 <= i < |data| :: links[i] == data[i].link
  {
    seq(|data|, i requires 0 <= i < |data| => data[i].link)
  }

  /** The first occurrence of every link that is not yet in `progress`, in order. */
  function Pending(links: seq<string>, progress: map<string, string>): seq<string> {
    if links == [] then []
    else
      var prev := Pending(links[..|links| - 1], progress);
      var url := links[|links| - 1];
      if url in progress || url in prev then prev else prev + [url]
  }

  /**
   * The de-duplicated URL list holds no repeats and no URL already in
   * `progress`, and holds every other link.
   */
  lemma {:induction false} PendingMembers(links: seq<string>, progress: map<string, string>)
    ensures var p := Pending(links, progress);
      (forall i, j | 0 <= i < j < |p| :: p[i] != p[j])
      && (forall u :: u in p <==> u !in progress && u in links)
  {
    if links != [] {
      var init := links[..|links| - 1];
      PendingMembers(init, progress);
      assert links == init + [links[|links| - 1]];
    }
  }

  /** Every element of `p` occurs in `links`, and `p` lists them in order of first occurrence there. */
  predicate FirstOccurrenceOrder(links: seq<string>, p: seq<string>) {
    (forall u | u in p :: u in links)
    && forall i, j | 0 <= i < j < |p| :: IndexOf(links, p[i]) < IndexOf(links, p[j])
  }

  /** The de-duplicated URL list keeps the order of first occurrence. */
  lemma {:induction false} PendingOrder(links: seq<string>, progress: map<string, string>)
    ensures FirstOccurrenceOrder(links, Pending(links, progress))
  {
    if links != [] {
      var init := links[..|links| - 1];
      var url := links[|links| - 1];
      PendingOrder(init, progress);
      assert links == init + [url];
      var prev := Pending(init, progress);
      if url in progress || url in prev {
        OrderExtend(init, url, prev);
      } else {
        PendingMembers(init, progress);
        assert url !in init;
        OrderAppend(init, url, prev);
      }
    }
  }

  /** Order by first occurrence survives a link appended at the end. */
  lemma OrderExtend(init: seq<string>, url: string, p: seq<string>)
    requires FirstOccurrenceOrder(init, p)
    ensures FirstOccurrenceOrder(init + [url], p)
  {
    forall u | u in p
      ensures IndexOf(init + [url], u) == IndexOf(init, u)
    {
      IndexOfExtend(init, url, u);
    }
  }

  /** A link seen for the first time at the end comes after everything before it. */
  lemma OrderAppend(init: seq<string>, url: string, p: seq<string>)
    requires FirstOccurrenceOrder(init, p) && url !in init
    ensures FirstOccurrenceOrder(init + [url], p + [url])
  {
    var links := init + [url];
    OrderExtend(init, url, p);
    assert IndexOf(links, url) == |init| by {
      assert links[..|init|] == init;
    }
    forall i | 0 <= i < |p|
      ensures IndexOf(links, p[i]) < |init|
    {
    }
  }

  /** The loop in `main` that collects the URLs to fetch. */
  method PendingUrls(data: seq<Record>, progress: map<string, string>) returns (urls: seq<string>)
    ensures urls == Pending(Links(data), progress)
    ensures forall i, j | 0 <= i < j < |urls| :: urls[i] != urls[j]
    ensures forall u :: u in urls <==> u !in progress && u in Links(data)
  {
    urls := [];
    var seen: set<string> := {};
    var i := 0;
    while i < |data|
      invariant 0 <= i <= |data|
      invariant urls == Pending(Links(data)[..i], progress)
      invariant seen == set u | u in urls
    {
      var url := data[i].link;
      assert Links(data)[..i + 1][..i] == Links(data)[..i];
      if url !in progress && url !in seen {
        urls := urls + [url];
        seen := seen + {url};
      }
      i := i + 1;
    }
    assert Links(data)[..|data|] == Links(data);
    PendingMembers(Links(data), progress);
  }

  /** `progress` after every URL of `urls` has been given the date `dateOf` finds for it. */
  function WithDates(progress: map<string, string>, urls: seq<string>,
                     dateOf: string -> string): map<string, string>
  {
    map u | u in progress.Keys + (set v | v in urls) :: if u in urls then dateOf(u) else progress[u]
  }

  /** The loop over the finished futures, each recording its URL's date. */
  method RecordDates(progress: map<string, string>, urls: seq<string>, dateOf: string -> string)
    returns (newProgress: map<string, string>)
    ensures newProgress == WithDates(progress, urls, dateOf)
  {
    newProgress := progress;
    for k := 0 to |urls|
      invariant newProgress.Keys == progress.Keys + (set v | v in urls[..k])
      invariant forall u | u in newProgress ::
                  newProgress[u] == if u in urls[..k] then dateOf(u) else progress[u]
    {
      assert urls[..k + 1] == urls[..k] + [urls[k]];
      newProgress := newProgress[urls[k] := dateOf(urls[k])];
    }
    assert urls[..|urls|] == urls;
  }

  /** The date `process_single_url` records for a URL, `fetch` standing for `fetch_url`. */
  function DateOf(fetch: string -> Option<PageDates>): string -> string {
    u => ProcessSingleUrl(u, fetch(u)).1
  }

  /**
   * `main`: collect the pending URLs, record a date for each, then stamp the
   * records. `fetch` gives a URL's page (its regex matches) or `None`.
   */
  method FetchAllDates(data: array<Record>, progress: map<string, string>,
                       fetch: string -> Option<PageDates>)
    returns (newProgress: map<string, string>, found: nat, notFound: nat)
    modifies data
    ensures newProgress == WithDates(progress, Pending(Links(old(data[..])), progress), DateOf(fetch))
    ensures forall i | 0 <= i < data.Length :: data[i] == Stamped(old(data[i]), newProgress)
    ensures found == CountFound(old(data[..]), newProgress)
    ensures found + notFound == data.Length
  {
    var urls := PendingUrls(data[..], progress);
    newProgress := RecordDates(progress, urls, DateOf(fetch));
    found, notFound := ApplyDates(data, newProgress);
  }

  /** After `main` every record's link has a recorded date, canonical or the default. */
  lemma EveryLinkProcessed(links: seq<string>, progress: map<string, string>,
                           fetch: string -> Option<PageDates>)
    requires GoodProgress(progress)
    ensures var p := WithDates(progress, Pending(links, progress), DateOf(fetch));
      GoodProgress(p) && forall i | 0 <= i < |links| :: links[i] in p
  {
    PendingMembers(links, progress);
  }
}
