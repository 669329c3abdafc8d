/**
Lower case, white space, decimal numerals and the code-point order of strings, which identifiers,
collection stamps, digests and similarity tests are built from.
*/
module Text {

  // ---- Case and white space, of ASCII ----

  predicate IsSpace(c: char) {
    c == ' ' || '\t' <= c <= '\r' || 0x1c <= c as int <= 0x1f
  }

  function LeftStripped(s: string): (r: string)
    ensures r != "" ==> !IsSpace(r[0])
  {
    if s != "" && IsSpace(s[0]) then LeftStripped(s[1..]) else s
  }

  function RightStripped(s: string): (r: string)
    ensures r <= s
  {
    if s != "" && IsSpace(s[|s| - 1]) then RightStripped(s[..|s| - 1]) else s
  }

  function Strip(s: string): (r: string)
    ensures r != "" ==> !IsSpace(r[0])
  {
    RightStripped(LeftStripped(s))
  }

  ghost predicate AllSpace(s: string) {
    forall i :: 0 <= i < |s| ==> IsSpace(s[i])
  }

  lemma {:induction false} LeftStrippedRemovesSpace(s: string) returns (lead: string)
    ensures AllSpace(lead) && s == lead + LeftStripped(s)
  {
    if s != "" && IsSpace(s[0]) {
      var rest := LeftStrippedRemovesSpace(s[1..]);
      lead := [s[0]] + rest;
    } else {
      lead := "";
    }
  }

  lemma {:induction false} RightStrippedRemovesSpace(s: string) returns (trail: string)
    ensures AllSpace(trail) && s == RightStripped(s) + trail
    ensures RightStripped(s) != "" ==> !IsSpace(RightStripped(s)[|RightStripped(s)| - 1])
  {
    if s != "" && IsSpace(s[|s| - 1]) {
      var rest := RightStrippedRemovesSpace(s[..|s| - 1]);
      trail := rest + [s[|s| - 1]];
    } else {
      trail := "";
    }
  }

  /** Stripping takes white space off both ends, all of it, and nothing else. */
  lemma {:induction false} StripRemovesOnlySpace(s: string) returns (lead: string, trail: string)
    ensures AllSpace(lead) && AllSpace(trail) && s == lead + Strip(s) + trail
    ensures Strip(s) != "" ==> !IsSpace(Strip(s)[0]) && !IsSpace(Strip(s)[|Strip(s)| - 1])
  {
    lead := LeftStrippedRemovesSpace(s);
    trail := RightStrippedRemovesSpace(LeftStripped(s));
  }

  function LowerChar(c: char): char {
    if 'A' <= c <= 'Z' then (c as int + 32) as char else c
  }

  function Lower(s: string): string {
    seq(|s|, i requires 0 <= i < |s| => LowerChar(s[i]))
  }

  // ---- Numerals ----

  function DigitChar(d: int): char
    requires 0 <= d < 10
  {
    "0123456789"[d]
  }

  predicate IsDigit(c: char) {
    '0' <= c <= '9'
  }

  function DigitValue(c: char): (d: int)
    requires IsDigit(c)
    ensures 0 <= d < 10
  {
    c as int - '0' as int
  }

  lemma {:induction false} DigitsAreChars(d: int)
    requires 0 <= d < 10
    ensures IsDigit(DigitChar(d)) && DigitValue(DigitChar(d)) == d
  {
  }

  ghost predicate AllDigits(s: string) {
    forall i :: 0 <= i < |s| ==> IsDigit(s[i])
  }

  /** `str(n)` of a non-negative number. */
  function Decimal(n: nat): string {
    (if n < 10 then "" else Decimal(n / 10)) + [DigitChar(n % 10)]
  }

  /** The number a digit string denotes. */
  function Value(s: string): nat
    requires AllDigits(s)
  {
    if s == "" then 0 else Value(s[..|s| - 1]) * 10 + DigitValue(s[|s| - 1])
  }

  lemma {:induction false} AppendedDigit(head: string, d: int)
    requires AllDigits(head) && 0 <= d < 10
    ensures AllDigits(head + [DigitChar(d)]) && Value(head + [DigitChar(d)]) == Value(head) * 10 + d
  {
    DigitsAreChars(d);
    assert (head + [DigitChar(d)])[..|head|] == head;
  }

  lemma {:induction false} DecimalRoundTrip(n: nat)
    ensures AllDigits(Decimal(n)) && Decimal(n) != "" && Value(Decimal(n)) == n
    decreases n
  {
    DigitsAreChars(n % 10);
    var head := if n < 10 then "" else Decimal(n / 10);
    if n >= 10 {
      DecimalRoundTrip(n / 10);
    }
    AppendedDigit(head, n % 10);
    assert n == n / 10 * 10 + n % 10;
  }

  function Pow10(k: nat): (p: nat)
    ensures p >= 1
  {
    if k == 0 then 1 else 10 * Pow10(k - 1)
  }

  /** A numeral has `k` digits at most exactly when the number is below the `k`-th power of ten. */
  lemma {:induction false} DecimalLength(n: nat, k: nat)
    requires k >= 1
    ensures |Decimal(n)| <= k <==> n < Pow10(k)
    decreases n
  {
    if n < 10 {
      assert Pow10(k) == 10 * Pow10(k - 1);
    } else if k == 1 {
      assert Decimal(n / 10) != "" by { DecimalRoundTrip(n / 10); }
      assert Pow10(1) == 10 * Pow10(0);
    } else {
      DecimalLength(n / 10, k - 1);
    }
  }

  function Zeros(k: nat): (s: string)
    ensures |s| == k && forall i :: 0 <= i < k ==> s[i] == '0'
  {
    if k == 0 then "" else "0" + Zeros(k - 1)
  }

  /** `f"{n:0{width}d}"`. */
  function Padded(n: nat, width: nat): string {
    Pad(Decimal(n), width)
  }

  function Pad(s: string, width: nat): string {
    if |s| >= width then s else Zeros(width - |s|) + s
  }

  lemma {:induction false} ZerosAddNothing(k: nat, s: string)
    requires AllDigits(s)
    ensures AllDigits(Zeros(k) + s) && Value(Zeros(k) + s) == Value(s)
    decreases |s|, k
  {
    var all := Zeros(k) + s;
    if s != "" {
      assert all[..|all| - 1] == Zeros(k) + s[..|s| - 1];
      ZerosAddNothing(k, s[..|s| - 1]);
    } else if k > 0 {
      assert all[..|all| - 1] == Zeros(k - 1) + "";
      ZerosAddNothing(k - 1, "");
    }
  }

  lemma {:induction false} PadValue(s: string, width: nat)
    requires AllDigits(s)
    ensures AllDigits(Pad(s, width)) && Value(Pad(s, width)) == Value(s)
  {
    if |s| < width {
      ZerosAddNothing(width - |s|, s);
    }
  }

  lemma {:induction false} PaddedValue(n: nat, width: nat)
    ensures AllDigits(Padded(n, width)) && Value(Padded(n, width)) == n
  {
    DecimalRoundTrip(n);
    PadValue(Decimal(n), width);
  }

  lemma {:induction false} PaddedLength(n: nat, width: nat)
    requires width >= 1
    ensures |Padded(n, width)| >= width
    ensures |Padded(n, width)| == width <==> n < Pow10(width)
  {
    DecimalLength(n, width);
  }

  // ---- Code-point order ----

  /** Python's `a < b` on strings. */
  predicate Less(a: string, b: string) {
    if b == "" then false
    else if a == "" then true
    else if a[0] != b[0] then a[0] < b[0]
    else Less(a[1..], b[1..])
  }

  lemma {:induction false} LessIrreflexive(a: string)
    ensures !Less(a, a)
  {
    if a != "" {
      LessIrreflexive(a[1..]);
    }
  }

  lemma {:induction false} LessTotal(a: string, b: string)
    ensures a == b || Less(a, b) || Less(b, a)
  {
    if a != "" && b != "" && a[0] == b[0] {
      LessTotal(a[1..], b[1..]);
      assert a == [a[0]] + a[1..] && b == [b[0]] + b[1..];
    }
  }

  lemma {:induction false} LessTransitive(a: string, b: string, c: string)
    requires Less(a, b) && Less(b, c)
    ensures Less(a, c)
  {
    if a != "" && a[0] == b[0] == c[0] {
      LessTransitive(a[1..], b[1..], c[1..]);
    }
  }

  lemma {:induction false} LessAfterPrefix(prefix: string, a: string, b: string)
    ensures Less(prefix + a, prefix + b) <==> Less(a, b)
  {
    if prefix == "" {
      assert prefix + a == a && prefix + b == b;
    } else {
      LessAfterPrefix(prefix[1..], a, b);
      assert (prefix + a)[1..] == prefix[1..] + a && (prefix + b)[1..] == prefix[1..] + b;
    }
  }

  /** Equally long heads that differ decide the comparison, whatever follows them. */
  lemma {:induction false} LessDecidedByHead(a: string, b: string, x: string, y: string)
    requires |a| == |b| && a != b
    ensures Less(a + x, b + y) <==> Less(a, b)
  {
    if a[0] == b[0] {
      assert a == [a[0]] + a[1..] && b == [b[0]] + b[1..];
      LessDecidedByHead(a[1..], b[1..], x, y);
      assert (a + x)[1..] == a[1..] + x && (b + y)[1..] == b[1..] + y;
    }
  }

  lemma {:induction false} Shifted(d: nat, p: nat, v: nat, last: nat)
    ensures (d * p + v) * 10 + last == d * (10 * p) + (v * 10 + last)
  {
    assert (d * p) * 10 == d * (10 * p);
  }

  lemma {:induction false} ValueHead(s: string)
    requires s != "" && AllDigits(s)
    ensures Value(s) == DigitValue(s[0]) * Pow10(|s| - 1) + Value(s[1..])
    ensures Value(s) < Pow10(|s|)
  {
    var n := |s| - 1;
    if n == 0 {
      assert s[..0] == "" && s[1..] == "";
      assert Pow10(1) == 10 * Pow10(0);
    } else {
      ValueHead(s[..n]);
      assert s[..n][1..] == s[1..][..n - 1];
      assert s[1..][n - 1] == s[n];
      assert s[..n][0] == s[0];
      Shifted(DigitValue(s[0]), Pow10(n - 1), Value(s[1..n]), DigitValue(s[n]));
      assert s[..n][1..] == s[1..n];
    }
  }

  lemma {:induction false} DigitDominates(d: int, e: int, p: nat, v: nat, w: nat)
    requires d < e && v < p
    ensures d * p + v < e * p + w
  {
    assert (d + 1) * p <= e * p;
    assert (d + 1) * p == d * p + p;
  }

  /** Fixed-width digit strings sort as the numbers they denote. */
  lemma {:induction false} FixedWidthOrder(a: string, b: string)
    requires |a| == |b| && AllDigits(a) && AllDigits(b)
    ensures Less(a, b) <==> Value(a) < Value(b)
  {
    if a != "" {
      ValueHead(a);
      ValueHead(b);
      var p := Pow10(|a| - 1);
      if a[0] == b[0] {
        FixedWidthOrder(a[1..], b[1..]);
      } else {
        ValueBelow(a[1..]);
        ValueBelow(b[1..]);
        if a[0] < b[0] {
          DigitDominates(DigitValue(a[0]), DigitValue(b[0]), p, Value(a[1..]), Value(b[1..]));
        } else {
          DigitDominates(DigitValue(b[0]), DigitValue(a[0]), p, Value(b[1..]), Value(a[1..]));
        }
      }
    }
  }

  lemma {:induction false} ValueBelow(s: string)
    requires AllDigits(s)
    ensures Value(s) < Pow10(|s|)
  {
    if s != "" {
      ValueHead(s);
    }
  }
}
