/**
 * The few .NET string services the core relies on, written out:
 * decimal formatting of an int (interpolation of `{n}`), `int.TryParse`,
 * `string.Replace` (ordinal, all non-overlapping occurrences, left to right)
 * and an ordinal string order standing in for the database's `OrderBy(Name)`.
 */
module Text {
  import opened Common

  const Int32Min: int := -2147483648
  const Int32Max: int := 2147483647

  predicate IsDigit(c: char) { '0' <= c <= '9' }

  predicate AllDigits(s: string) { forall i :: 0 <= i < |s| ==> IsDigit(s[i]) }

  /** The white space `int.TryParse` skips at both ends (U+0009..U+000D and U+0020). */
  predicate IsWhite(c: char) { c == ' ' || ('\t' <= c <= '\r') }

  function DigitChar(d: nat): (c: char)
    requires d < 10
    ensures IsDigit(c)
  {
    ('0' as int + d) as char
  }

  /** The decimal digits of `n`, most significant first, without leading zeros. */
  function DecimalString(n: nat): (s: string)
    ensures |s| > 0 && AllDigits(s)
  {
    if n < 10 then [DigitChar(n)] else DecimalString(n / 10) + [DigitChar(n % 10)]
  }

  /** `n.ToString()` for an int: a minus sign before the digits of a negative number. */
  function IntToString(n: int): string
  {
    if n < 0 then "-" + DecimalString(-n) else DecimalString(n)
  }

  /** A GUID interpolated into a message; the decimal digits of the number that stands for it. */
  function GuidText(id: Guid): string
  {
    DecimalString(id)
  }

  /** The value of a string of decimal digits. */
  function DigitsValue(s: string): nat
    requires AllDigits(s)
  {
    if s == [] then 0 else DigitsValue(s[..|s| - 1]) * 10 + (s[|s| - 1] as int - '0' as int)
  }

  function TrimStart(s: string): string
  {
    if |s| > 0 && IsWhite(s[0]) then TrimStart(s[1..]) else s
  }

  function TrimEnd(s: string): string
  {
    if |s| > 0 && IsWhite(s[|s| - 1]) then TrimEnd(s[..|s| - 1]) else s
  }

  /**
   * `int.TryParse(s, out v)`: surrounding white space, an optional sign, at
   * least one decimal digit, and a value that fits in 32 bits.
   */
  function ParseInt32(s: string): (r: Option<int>)
    ensures r.Some? ==> Int32Min <= r.value <= Int32Max
  {
    var t := TrimEnd(TrimStart(s));
    var negative := |t| > 0 && t[0] == '-';
    var digits := if |t| > 0 && (t[0] == '-' || t[0] == '+') then t[1..] else t;
    if |digits| == 0 || !AllDigits(digits) then None
    else
      var magnitude: int := DigitsValue(digits);
      var v := if negative then -magnitude else magnitude;
      if Int32Min <= v <= Int32Max then Some(v) else None
  }

  lemma {:induction false} DecimalStringValue(n: nat)
    ensures DigitsValue(DecimalString(n)) == n
  {
    if n >= 10 {
      var s := DecimalString(n);
      assert s[..|s| - 1] == DecimalString(n / 10);
      DecimalStringValue(n / 10);
    }
  }

  lemma TrimKeepsDigitEnds(s: string)
    requires |s| > 0 && !IsWhite(s[0]) && !IsWhite(s[|s| - 1])
    ensures TrimEnd(TrimStart(s)) == s
  {
  }

  /** Formatting an Int32 and parsing it back gives the same number. */
  lemma ParseFormatRoundTrip(n: int)
    requires Int32Min <= n <= Int32Max
    ensures ParseInt32(IntToString(n)) == Some(n)
  {
    var s := IntToString(n);
    if n < 0 {
      var d := DecimalString(-n);
      assert s[1..] == d;
      TrimKeepsDigitEnds(s);
      DecimalStringValue(-n);
    } else {
      TrimKeepsDigitEnds(s);
      DecimalStringValue(n);
    }
  }

  /** `pat` occurs in `s` starting at index `i`. */
  predicate OccursAt(s: string, pat: string, i: nat)
  {
    i + |pat| <= |s| && s[i..i + |pat|] == pat
  }

  /**
   * `s.Replace(pat, rep)`: scanning left to right, every occurrence of `pat`
   * is replaced by `rep` and the scan resumes after it.
   */
  function ReplaceAll(s: string, pat: string, rep: string): string
    requires |pat| > 0
    decreases |s|
  {
    if |s| < |pat| then s
    else if s[..|pat|] == pat then rep + ReplaceAll(s[|pat|..], pat, rep)
    else [s[0]] + ReplaceAll(s[1..], pat, rep)
  }

  /** A text in which the pattern does not occur is returned unchanged. */
  lemma {:induction false} ReplaceAbsent(s: string, pat: string, rep: string)
    requires |pat| > 0
    requires forall i: nat :: !OccursAt(s, pat, i)
    ensures ReplaceAll(s, pat, rep) == s
    decreases |s|
  {
    if |s| >= |pat| {
      assert !OccursAt(s, pat, 0);
      assert s[..|pat|] != pat;
      forall i: nat ensures !OccursAt(s[1..], pat, i) {
        assert !OccursAt(s, pat, i + 1);
        if i + |pat| <= |s| - 1 {
          assert s[1..][i..i + |pat|] == s[i + 1..i + 1 + |pat|];
        }
      }
      ReplaceAbsent(s[1..], pat, rep);
      assert [s[0]] + s[1..] == s;
    }
  }

  /**
   * A prefix at none of whose positions an occurrence of the pattern starts
   * is copied through.
   */
  lemma {:induction false} ReplaceSkips(a: string, b: string, pat: string, rep: string)
    requires |pat| > 0
    requires forall i: nat :: i < |a| ==> !OccursAt(a + b, pat, i)
    ensures ReplaceAll(a + b, pat, rep) == a + ReplaceAll(b, pat, rep)
    decreases |a|
  {
    var s := a + b;
    if |a| == 0 {
      assert s == b;
    } else if |s| >= |pat| {
      assert !OccursAt(s, pat, 0);
      assert s[1..] == a[1..] + b;
      SkipsShift(a, b, pat);
      ReplaceSkips(a[1..], b, pat, rep);
      assert [a[0]] + a[1..] == a;
    }
  }

  lemma SkipsShift(a: string, b: string, pat: string)
    requires |a| > 0
    requires forall i: nat :: i < |a| ==> !OccursAt(a + b, pat, i)
    ensures forall i: nat :: i < |a[1..]| ==> !OccursAt(a[1..] + b, pat, i)
  {
    var t := a[1..] + b;
    assert t == (a + b)[1..];
    forall i: nat | i < |a[1..]| ensures !OccursAt(t, pat, i) {
      assert !OccursAt(a + b, pat, i + 1);
      if i + |pat| <= |t| {
        assert t[i..i + |pat|] == (a + b)[i + 1..i + 1 + |pat|];
      }
    }
  }

  lemma ReplaceLeading(b: string, pat: string, rep: string)
    requires |pat| > 0
    ensures ReplaceAll(pat + b, pat, rep) == rep + ReplaceAll(b, pat, rep)
  {
    var s := pat + b;
    assert s[..|pat|] == pat;
    assert s[|pat|..] == b;
  }

  /** No occurrence of `pat` in `a + b` begins inside `a` and runs on into `b`. */
  predicate NoStraddle(a: string, b: string, pat: string)
  {
    forall i: nat :: i < |a| < i + |pat| ==> !OccursAt(a + b, pat, i)
  }

  lemma NoStraddleShift(a: string, b: string, pat: string, m: nat)
    requires m <= |a| && NoStraddle(a, b, pat)
    ensures NoStraddle(a[m..], b, pat)
  {
    var t := a[m..] + b;
    assert t == (a + b)[m..];
    forall i: nat | i < |a[m..]| < i + |pat| ensures !OccursAt(t, pat, i) {
      assert !OccursAt(a + b, pat, i + m);
      if i + |pat| <= |t| {
        assert t[i..i + |pat|] == (a + b)[i + m..i + m + |pat|];
      }
    }
  }

  /**
   * Replacing in a concatenation is replacing in each half, as long as no
   * occurrence of the pattern straddles the seam.
   */
  lemma {:induction false} ReplaceSplit(a: string, b: string, pat: string, rep: string)
    requires |pat| > 0 && NoStraddle(a, b, pat)
    ensures ReplaceAll(a + b, pat, rep) == ReplaceAll(a, pat, rep) + ReplaceAll(b, pat, rep)
    decreases |a|
  {
    var s := a + b;
    if |a| == 0 {
      assert s == b;
    } else if |a| < |pat| {
      ReplaceSkips(a, b, pat, rep);
    } else {
      assert s[..|pat|] == a[..|pat|];
      if a[..|pat|] == pat {
        assert s[|pat|..] == a[|pat|..] + b;
        NoStraddleShift(a, b, pat, |pat|);
        ReplaceSplit(a[|pat|..], b, pat, rep);
      } else {
        assert s[1..] == a[1..] + b;
        NoStraddleShift(a, b, pat, 1);
        ReplaceSplit(a[1..], b, pat, rep);
      }
    }
  }

  /** The pattern's first character does not occur again in it (as `{` in `{key}`). */
  predicate FirstCharUnique(pat: string)
  {
    forall j :: 0 < j < |pat| ==> pat[j] != pat[0]
  }

  /** When the text after the seam starts with such a pattern's first character, nothing straddles. */
  lemma SeamAtFirstChar(a: string, b: string, pat: string)
    requires FirstCharUnique(pat) && |b| > 0 && |pat| > 0 && b[0] == pat[0]
    ensures NoStraddle(a, b, pat)
  {
    forall i: nat | i < |a| < i + |pat| ensures !OccursAt(a + b, pat, i) {
      var s := a + b;
      if i + |pat| <= |s| {
        var j := |a| - i;
        assert s[i..i + |pat|][j] == s[|a|] == b[0];
        assert pat[j] != pat[0];
      }
    }
  }

  /** `parts` joined with `sep` between consecutive parts (`string.Join`). */
  function Join(parts: seq<string>, sep: string): string
    requires |parts| > 0
  {
    if |parts| == 1 then parts[0] else parts[0] + sep + Join(parts[1..], sep)
  }

  /**
   * Replace-all agrees with split-and-rejoin: for a pattern whose first
   * character does not recur in it, and text between the occurrences that
   * holds no occurrence of its own, replacing `pat` by `rep` puts `rep`
   * exactly where each `pat` stood.
   */
  lemma {:induction false} ReplaceJoin(parts: seq<string>, pat: string, rep: string)
    requires |parts| > 0 && |pat| > 0 && FirstCharUnique(pat)
    requires forall p, i: nat :: p in parts ==> !OccursAt(p, pat, i)
    ensures ReplaceAll(Join(parts, pat), pat, rep) == Join(parts, rep)
    decreases |parts|
  {
    var p0 := parts[0];
    assert p0 in parts;
    ReplaceAbsent(p0, pat, rep);
    if |parts| > 1 {
      assert forall p :: p in parts[1..] ==> p in parts;
      ReplaceJoin(parts[1..], pat, rep);
      ReplaceAfterPart(p0, Join(parts[1..], pat), pat, rep);
    }
  }

  /** One part, free of the pattern, then the pattern: the part is copied and the pattern becomes `rep`. */
  lemma ReplaceAfterPart(p0: string, rest: string, pat: string, rep: string)
    requires |pat| > 0 && FirstCharUnique(pat)
    requires forall i: nat :: !OccursAt(p0, pat, i)
    ensures ReplaceAll(p0 + pat + rest, pat, rep) == p0 + rep + ReplaceAll(rest, pat, rep)
  {
    assert p0 + pat + rest == p0 + (pat + rest);
    ReplaceAbsent(p0, pat, rep);
    SeamAtFirstChar(p0, pat + rest, pat);
    ReplaceSplit(p0, pat + rest, pat, rep);
    ReplaceLeading(rest, pat, rep);
  }

  /** Ordinal string order: a prefix first, otherwise the first differing character decides. */
  predicate LexLeq(a: string, b: string)
  {
    if |a| == 0 then true
    else if |b| == 0 then false
    else if a[0] != b[0] then a[0] < b[0]
    else LexLeq(a[1..], b[1..])
  }

  lemma {:induction false} LexLeqTotal(a: string, b: string)
    ensures LexLeq(a, b) || LexLeq(b, a)
  {
    if |a| > 0 && |b| > 0 && a[0] == b[0] {
      LexLeqTotal(a[1..], b[1..]);
    }
  }

  lemma {:induction false} LexLeqTransitive(a: string, b: string, c: string)
    requires LexLeq(a, b) && LexLeq(b, c)
    ensures LexLeq(a, c)
  {
    if |a| > 0 && |b| > 0 && |c| > 0 && a[0] == b[0] && b[0] == c[0] {
      LexLeqTransitive(a[1..], b[1..], c[1..]);
    }
  }
}
