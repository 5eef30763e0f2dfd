/** The JavaScript building blocks the pages are written with: optional
    values, Array.prototype.filter/find/findIndex/slice, String.includes and
    toLowerCase, the decimal rendering of numbers in template literals,
    Math.round of a percentage and Math.ceil of a quotient. */
module Common {

  /** A value that may be absent (`undefined`/`null` in the source). */
  datatype Option<+T> = None | Some(value: T)

  /** `o || d` on a numeric field: 0 and absent are both falsy. */
  function OrDefault(o: Option<int>, d: int): (r: int)
    ensures o.Some? && o.value != 0 ==> r == o.value
    ensures o.None? || o.value == 0 ==> r == d
  {
    if o.Some? && o.value != 0 then o.value else d
  }

  // ---------------------------------------------------------------------
  // Sequences
  // ---------------------------------------------------------------------

  /** `a` can be obtained from `b` by deleting elements (order is kept). */
  ghost predicate IsSubsequence<T>(a: seq<T>, b: seq<T>)
    decreases |b|
  {
    a == [] ||
    (b != [] && ((a[0] == b[0] && IsSubsequence(a[1..], b[1..])) || IsSubsequence(a, b[1..])))
  }

  /** Array.prototype.filter. */
  function Filter<T>(s: seq<T>, p: T -> bool): (r: seq<T>)
    ensures |r| <= |s|
    ensures forall i :: 0 <= i < |r| ==> r[i] in s && p(r[i])
    ensures forall i :: 0 <= i < |s| && p(s[i]) ==> s[i] in r
  {
    if s == [] then [] else (if p(s[0]) then [s[0]] else []) + Filter(s[1..], p)
  }

  lemma {:induction false} FilterIsSubsequence<T>(s: seq<T>, p: T -> bool)
    ensures IsSubsequence(Filter(s, p), s)
  {
    if s != [] {
      FilterIsSubsequence(s[1..], p);
      var rest := Filter(s[1..], p);
      if p(s[0]) {
        assert Filter(s, p) == [s[0]] + rest;
        assert ([s[0]] + rest)[1..] == rest;
      } else {
        assert Filter(s, p) == rest;
      }
    }
  }

  lemma FilterCons<T>(x: T, t: seq<T>, p: T -> bool)
    ensures Filter([x] + t, p) == (if p(x) then [x] else []) + Filter(t, p)
  {
    assert ([x] + t)[1..] == t;
  }

  lemma {:induction false} FilterIdempotent<T>(s: seq<T>, p: T -> bool)
    ensures Filter(Filter(s, p), p) == Filter(s, p)
  {
    if s != [] {
      FilterIdempotent(s[1..], p);
      if p(s[0]) {
        assert Filter(s, p) == [s[0]] + Filter(s[1..], p);
        FilterCons(s[0], Filter(s[1..], p), p);
      } else {
        assert Filter(s, p) == Filter(s[1..], p);
      }
    }
  }

  lemma {:induction false} FilterKeepsAll<T>(s: seq<T>, p: T -> bool)
    requires forall i :: 0 <= i < |s| ==> p(s[i])
    ensures Filter(s, p) == s
  {
    if s != [] {
      FilterKeepsAll(s[1..], p);
    }
  }

  lemma {:induction false} FilterDropsAll<T>(s: seq<T>, p: T -> bool)
    requires forall i :: 0 <= i < |s| ==> !p(s[i])
    ensures Filter(s, p) == []
  {
    if s != [] {
      FilterDropsAll(s[1..], p);
    }
  }

  /** Filtering by two predicates that agree on the elements gives the same
      result. */
  lemma {:induction false} FilterSamePredicate<T>(s: seq<T>, p: T -> bool, q: T -> bool)
    requires forall i :: 0 <= i < |s| ==> p(s[i]) == q(s[i])
    ensures Filter(s, p) == Filter(s, q)
  {
    if s != [] {
      FilterSamePredicate(s[1..], p, q);
    }
  }

  /** Filtering by a predicate and by its negation splits the sequence. */
  lemma {:induction false} FilterPartition<T>(s: seq<T>, p: T -> bool, q: T -> bool)
    requires forall x :: q(x) == !p(x)
    ensures |Filter(s, p)| + |Filter(s, q)| == |s|
  {
    if s != [] {
      FilterPartition(s[1..], p, q);
    }
  }

  /** `s.slice(0, n)` for n >= 0. */
  function Take<T>(s: seq<T>, n: nat): (r: seq<T>)
    ensures |r| == if n < |s| then n else |s|
    ensures r <= s
  {
    if n < |s| then s[..n] else s
  }

  /** Array.prototype.findIndex: the first index satisfying p, or -1. */
  function FindIndex<T>(s: seq<T>, p: T -> bool): (k: int)
    ensures -1 <= k < |s|
    ensures k >= 0 ==> p(s[k])
    ensures forall j :: 0 <= j < |s| && (k < 0 || j < k) ==> !p(s[j])
  {
    if s == [] then -1
    else if p(s[0]) then 0
    else
      var k := FindIndex(s[1..], p);
      if k < 0 then -1 else k + 1
  }

  /** Array.prototype.find. */
  function FindFirst<T>(s: seq<T>, p: T -> bool): (r: Option<T>)
    ensures r.None? <==> forall j :: 0 <= j < |s| ==> !p(s[j])
    ensures r.Some? ==> exists k :: 0 <= k < |s| && s[k] == r.value && p(s[k]) &&
                                   forall j :: 0 <= j < k ==> !p(s[j])
  {
    var k := FindIndex(s, p);
    if k < 0 then None else Some(s[k])
  }

  lemma FindFirstCons<T>(x: T, s: seq<T>, p: T -> bool)
    ensures FindFirst([x] + s, p) == if p(x) then Some(x) else FindFirst(s, p)
  {
    assert ([x] + s)[1..] == s;
  }

  /** Dropping elements that do not satisfy `keep` does not change what
      `find` returns, provided the element it returns satisfies `keep`. */
  lemma {:induction false} FindFirstFilter<T>(s: seq<T>, p: T -> bool, keep: T -> bool)
    requires FindFirst(s, p).Some? && keep(FindFirst(s, p).value)
    ensures FindFirst(Filter(s, keep), p) == FindFirst(s, p)
  {
    var x, tail := s[0], s[1..];
    assert s == [x] + tail;
    FindFirstCons(x, tail, p);
    FilterCons(x, tail, keep);
    if p(x) {
      assert keep(x);
      assert Filter(s, keep) == [x] + Filter(tail, keep);
      FindFirstCons(x, Filter(tail, keep), p);
    } else {
      assert FindFirst(s, p) == FindFirst(tail, p);
      FindFirstFilter(tail, p, keep);
      if keep(x) {
        assert Filter(s, keep) == [x] + Filter(tail, keep);
        FindFirstCons(x, Filter(tail, keep), p);
      } else {
        assert Filter(s, keep) == Filter(tail, keep);
      }
    }
  }


  // ---------------------------------------------------------------------
  // Strings
  // ---------------------------------------------------------------------

  /** `sub` occurs in `s` starting at position `i`. */
  ghost predicate OccursAt(s: string, sub: string, i: int)
  {
    0 <= i && i + |sub| <= |s| && s[i..i + |sub|] == sub
  }

  /** String.prototype.includes. */
  function Contains(s: string, sub: string): (r: bool)
    ensures sub == [] ==> r
    decreases |s|
  {
    if sub <= s then true
    else if s == [] then false
    else Contains(s[1..], sub)
  }

  lemma {:induction false} ContainsIff(s: string, sub: string)
    ensures Contains(s, sub) <==> exists i :: OccursAt(s, sub, i)
    decreases |s|
  {
    if sub <= s {
      assert OccursAt(s, sub, 0);
    } else if s == [] {
      forall i | OccursAt(s, sub, i) ensures false {
      }
    } else {
      ContainsIff(s[1..], sub);
      forall i | OccursAt(s[1..], sub, i) ensures OccursAt(s, sub, i + 1) {
        assert s[1..][i..i + |sub|] == s[i + 1..i + 1 + |sub|];
      }
      assert !OccursAt(s, sub, 0);
      forall i | OccursAt(s, sub, i) && i > 0 ensures OccursAt(s[1..], sub, i - 1) {
        assert s[1..][i - 1..i - 1 + |sub|] == s[i..i + |sub|];
      }
    }
  }

  /** Lower-casing of one character as String.prototype.toLowerCase does it
      for ASCII and Latin-1 upper-case letters. */
  function LowerChar(c: char): (r: char)
    ensures 'A' <= c <= 'Z' ==> 'a' <= r <= 'z' && r as int == c as int + 32
    ensures !('A' <= c <= 'Z') && !('\U{C0}' <= c <= '\U{DE}') ==> r == c
  {
    if 'A' <= c <= 'Z' || ('\U{C0}' <= c <= '\U{DE}' && c != '\U{D7}') then (c as int + 32) as char else c
  }

  /** String.prototype.toLowerCase. */
  function ToLower(s: string): (r: string)
    ensures |r| == |s|
    ensures forall i :: 0 <= i < |s| ==> r[i] == LowerChar(s[i])
  {
    seq(|s|, i requires 0 <= i < |s| => LowerChar(s[i]))
  }

  lemma ToLowerIdempotent(s: string)
    ensures ToLower(ToLower(s)) == ToLower(s)
  {
  }

  // ---------------------------------------------------------------------
  // Numbers rendered in template literals
  // ---------------------------------------------------------------------

  predicate IsDigit(c: char) { '0' <= c <= '9' }

  function DigitChar(d: nat): (c: char)
    requires d < 10
    ensures IsDigit(c) && c as int - '0' as int == d
  {
    ('0' as int + d) as char
  }

  /** Decimal digits of n, without leading zeros. */
  function NatToString(n: nat): (r: string)
    ensures |r| >= 1
    ensures forall i :: 0 <= i < |r| ==> IsDigit(r[i])
    ensures r[0] == '0' ==> n == 0 && r == "0"
  {
    if n < 10 then [DigitChar(n)] else NatToString(n / 10) + [DigitChar(n % 10)]
  }

  function DigitValue(c: char): nat
    requires IsDigit(c)
  {
    c as int - '0' as int
  }

  /** The value of a string of decimal digits. */
  function DigitsValue(s: string): nat
    requires forall i :: 0 <= i < |s| ==> IsDigit(s[i])
  {
    if s == [] then 0
    else DigitsValue(s[..|s| - 1]) * 10 + DigitValue(s[|s| - 1])
  }

  lemma {:induction false} NatToStringRoundTrip(n: nat)
    ensures DigitsValue(NatToString(n)) == n
  {
    if n >= 10 {
      NatToStringRoundTrip(n / 10);
      var r := NatToString(n);
      assert r[..|r| - 1] == NatToString(n / 10);
    }
  }

  /** `${n}` for an integer n. */
  function IntToString(n: int): (r: string)
    ensures |r| >= 1
    ensures n >= 0 <==> IsDigit(r[0])
  {
    if n < 0 then "-" + NatToString(-n) else NatToString(n)
  }

  /** A decimal numeral as `${n}` writes one: digits only, and no leading
      zero unless the numeral is "0" itself. */
  predicate IsNumeral(s: string)
  {
    && |s| >= 1
    && (forall i :: 0 <= i < |s| ==> IsDigit(s[i]))
    && (s[0] == '0' ==> s == "0")
  }

  /** Reads back what IntToString writes, and nothing else: a numeral,
      optionally after a minus sign that is not followed by "0". */
  function ParseInt(s: string): Option<int>
  {
    if |s| >= 2 && s[0] == '-' && IsNumeral(s[1..]) && s[1..] != "0" then
      var v: int := DigitsValue(s[1..]);
      Some(-v)
    else if IsNumeral(s) then
      Some(DigitsValue(s))
    else
      None
  }

  lemma IntToStringRoundTrip(n: int)
    ensures ParseInt(IntToString(n)) == Some(n)
  {
    var r := IntToString(n);
    if n < 0 {
      NatToStringRoundTrip(-n);
      assert r[1..] == NatToString(-n);
      assert forall i :: 1 <= i < |r| ==> IsDigit(r[i]) by {
        forall i | 1 <= i < |r| ensures IsDigit(r[i]) {
          assert r[i] == NatToString(-n)[i - 1];
        }
      }
    } else {
      NatToStringRoundTrip(n);
      assert r[0] != '-';
    }
  }

  /** A numeral with a non-zero first digit has a non-zero value. */
  lemma {:induction false} LeadingDigitPositive(s: string)
    requires |s| >= 1 && forall i :: 0 <= i < |s| ==> IsDigit(s[i])
    requires s[0] != '0'
    ensures DigitsValue(s) >= 1
  {
    if |s| >= 2 {
      LeadingDigitPositive(s[..|s| - 1]);
    }
  }

  /** Every numeral is the decimal text of its own value. */
  lemma {:induction false} NumeralIsCanonical(s: string)
    requires IsNumeral(s)
    ensures NatToString(DigitsValue(s)) == s
  {
    if |s| >= 2 {
      var init := s[..|s| - 1];
      LeadingDigitPositive(init);
      NumeralIsCanonical(init);
      var d := DigitValue(s[|s| - 1]);
      var n := DigitsValue(init) * 10 + d;
      assert DigitsValue(s) == n;
      assert n >= 10 && n / 10 == DigitsValue(init) && n % 10 == d;
      assert DigitChar(d) == s[|s| - 1];
      assert NatToString(n) == NatToString(n / 10) + [DigitChar(n % 10)];
      assert s == init + [s[|s| - 1]];
    }
  }

  /** A text reads back as n only when it is exactly IntToString(n): the
      read-back clauses built on ParseInt pin the rendered text. */
  lemma ParseIntExact(s: string, n: int)
    requires ParseInt(s) == Some(n)
    ensures s == IntToString(n)
  {
    if |s| >= 2 && s[0] == '-' && IsNumeral(s[1..]) && s[1..] != "0" {
      NumeralIsCanonical(s[1..]);
      assert s == "-" + s[1..];
      assert s[1] != '0';
      LeadingDigitPositive(s[1..]);
    } else {
      NumeralIsCanonical(s);
    }
  }

  /** Distinct numbers are rendered differently. */
  lemma IntToStringInjective(m: int, n: int)
    requires IntToString(m) == IntToString(n)
    ensures m == n
  {
    IntToStringRoundTrip(m);
    IntToStringRoundTrip(n);
  }

  // ---------------------------------------------------------------------
  // Arithmetic
  // ---------------------------------------------------------------------

  /** Math.round(c / t * 100): the nearest integer to 100c/t, halves rounded
      up (up to floating-point error). */
  function RoundPercent(c: int, t: int): (r: int)
    requires t > 0
    ensures 2 * t * r <= 200 * c + t < 2 * t * (r + 1)
  {
    (200 * c + t) / (2 * t)
  }

  lemma MulMonotone(a: int, x: int, y: int)
    requires a > 0 && x <= y
    ensures a * x <= a * y
  {
    assert a * y - a * x == a * (y - x);
  }

  lemma RoundPercentBounds(c: int, t: int)
    requires 0 <= c <= t && t > 0
    ensures 0 <= RoundPercent(c, t) <= 100
  {
    var r := RoundPercent(c, t);
    if r < 0 {
      MulMonotone(2 * t, r + 1, 0);
    }
    if r > 100 {
      MulMonotone(2 * t, 101, r);
    }
  }

  /** The percentage reaches 100 exactly when at least 99.5% are complete. */
  lemma RoundPercentFull(c: int, t: int)
    requires t > 0
    ensures RoundPercent(c, t) >= 100 <==> 200 * c >= 199 * t
  {
    var r := RoundPercent(c, t);
    if r >= 100 {
      MulMonotone(2 * t, 100, r);
    } else {
      MulMonotone(2 * t, r + 1, 100);
    }
  }

  lemma RoundPercentAll(t: int)
    requires t > 0
    ensures RoundPercent(t, t) == 100
  {
    RoundPercentFull(t, t);
    RoundPercentBounds(t, t);
  }

  /** Math.ceil(h / 4). */
  function CeilQuarter(h: int): (w: int)
    ensures 4 * (w - 1) < h <= 4 * w
  {
    (h + 3) / 4
  }

  /** Math.floor(a / b) for a positive divisor. */
  function FloorDiv(a: int, b: int): (q: int)
    requires b > 0
    ensures b * q <= a < b * (q + 1)
  {
    a / b
  }
}
