/** Rendering token amounts: decimal digits, a grouped whole part, and a truncated fraction
    whose length depends on the size of the whole part. */
module AmountFormat {
  import opened Common

  // ----- Decimal digits -----

  predicate IsDigit(c: char) {
    '0' <= c <= '9'
  }

  predicate AllDigits(s: string) {
    forall i :: 0 <= i < |s| ==> IsDigit(s[i])
  }

  function Pow10(k: nat): (p: nat)
    ensures p > 0
  {
    if k == 0 then 1 else 10 * Pow10(k - 1)
  }

  function ToDecimal(n: nat): string {
    var last := ['0' + (n % 10) as char];
    if n < 10 then last else ToDecimal(n / 10) + last
  }

  function DigitValue(c: char): nat {
    if IsDigit(c) then (c - '0') as nat else 0
  }

  /** The number a string of digits denotes. */
  function Value(s: string): nat {
    if s == "" then 0 else 10 * Value(s[..|s| - 1]) + DigitValue(s[|s| - 1])
  }

  lemma {:induction false} DecimalRoundTrip(n: nat)
    ensures AllDigits(ToDecimal(n)) && ToDecimal(n) != "" && Value(ToDecimal(n)) == n
  {
    if n >= 10 {
      DecimalRoundTrip(n / 10);
      var s := ToDecimal(n);
      assert s[..|s| - 1] == ToDecimal(n / 10);
    }
  }

  lemma {:induction false} PowSplit(a: nat, b: nat)
    ensures Pow10(a + b) == Pow10(a) * Pow10(b)
  {
    if a > 0 {
      PowSplit(a - 1, b);
    }
  }

  lemma {:induction false} ValueSplit(a: string, b: string)
    ensures Value(a + b) == Value(a) * Pow10(|b|) + Value(b)
  {
    if b == "" {
      assert a + b == a;
    } else {
      var n := |b| - 1;
      assert (a + b)[..|a| + n] == a + b[..n];
      ValueSplit(a, b[..n]);
      Distribute(Value(a), Pow10(n), Value(b[..n]), DigitValue(b[n]));
    }
  }

  lemma Distribute(a: nat, p: nat, b: nat, d: nat)
    ensures 10 * (a * p + b) + d == a * (10 * p) + (10 * b + d)
  {
  }

  lemma {:induction false} ValueBound(s: string)
    ensures Value(s) < Pow10(|s|)
  {
    if s != "" {
      ValueBound(s[..|s| - 1]);
    }
  }

  function Zeros(k: nat): string {
    seq(k, _ => '0')
  }

  lemma {:induction false} ZerosValue(k: nat)
    ensures Value(Zeros(k)) == 0
  {
    if k > 0 {
      assert Zeros(k)[..k - 1] == Zeros(k - 1);
      ZerosValue(k - 1);
    }
  }

  // ----- Grouping -----

  /** Groups of three from the right, separated by commas. */
  function Grouped(n: string): string {
    if |n| <= 3 then n else Grouped(n[..|n| - 3]) + "," + n[|n| - 3..]
  }

  /** The characters pushed for the first `i` digits of `n`. */
  ghost function Pushed(n: string, i: nat): string
    requires i <= |n|
  {
    if i == 0 then ""
    else Pushed(n, i - 1) + (if i > 1 && (|n| - (i - 1)) % 3 == 0 then "," else "") + [n[i - 1]]
  }

  lemma {:induction false} PushedPrefix(n: string, i: nat)
    requires |n| > 3 && i <= |n| - 3
    ensures Pushed(n, i) == Pushed(n[..|n| - 3], i)
  {
    if i > 0 {
      PushedPrefix(n, i - 1);
      assert (|n| - 3 - (i - 1)) % 3 == (|n| - (i - 1)) % 3;
    }
  }

  lemma {:induction false} PushedShort(n: string, i: nat)
    requires i <= |n| <= 3
    ensures Pushed(n, i) == n[..i]
  {
    if i > 0 {
      PushedShort(n, i - 1);
      assert n[..i] == n[..i - 1] + [n[i - 1]];
    }
  }

  /** The last three digits go in without a comma between them. */
  lemma {:induction false} PushedTail(n: string)
    requires |n| > 3
    ensures Pushed(n, |n|) == Pushed(n, |n| - 3) + "," + n[|n| - 3..]
  {
    var k := |n|;
    assert (k - (k - 1)) % 3 == 1 && (k - (k - 2)) % 3 == 2 && (k - (k - 3)) % 3 == 0;
    var p := Pushed(n, k - 3);
    assert Pushed(n, k - 2) == p + "," + [n[k - 3]];
    assert Pushed(n, k - 1) == p + "," + [n[k - 3], n[k - 2]];
    assert Pushed(n, k) == p + "," + [n[k - 3], n[k - 2], n[k - 1]];
    assert n[k - 3..] == [n[k - 3], n[k - 2], n[k - 1]];
  }

  lemma PushedGroup(n: string, grouped: string)
    requires |n| > 3 && Pushed(n[..|n| - 3], |n| - 3) == grouped
    ensures Pushed(n, |n|) == grouped + "," + n[|n| - 3..]
  {
    PushedPrefix(n, |n| - 3);
    PushedTail(n);
  }

  lemma {:induction false} PushedAll(n: string)
    ensures Pushed(n, |n|) == Grouped(n)
  {
    if |n| <= 3 {
      PushedShort(n, |n|);
    } else {
      PushedAll(n[..|n| - 3]);
      PushedGroup(n, Grouped(n[..|n| - 3]));
    }
  }

  /** Pushes the digits one by one, with a comma where a multiple of three is left. */
  method Thousands(n: string) returns (out: string)
    ensures out == Grouped(n)
  {
    out := "";
    for i := 0 to |n|
      invariant out == Pushed(n, i)
    {
      var fromEnd := |n| - i;
      if i > 0 && fromEnd % 3 == 0 {
        out := out + ",";
      }
      out := out + [n[i]];
    }
    PushedAll(n);
  }

  function StripCommas(s: string): string {
    if s == "" then "" else StripCommas(s[..|s| - 1]) + if s[|s| - 1] == ',' then "" else [s[|s| - 1]]
  }

  lemma {:induction false} StripSplit(a: string, b: string)
    ensures StripCommas(a + b) == StripCommas(a) + StripCommas(b)
  {
    if b == "" {
      assert a + b == a;
    } else {
      var n := |b| - 1;
      assert (a + b)[..|a| + n] == a + b[..n];
      StripSplit(a, b[..n]);
    }
  }

  lemma StripPush(s: string)
    ensures StripCommas(s + ",") == StripCommas(s)
  {
    assert (s + ",")[..|s|] == s;
  }

  lemma {:induction false} StripNone(s: string)
    requires ',' !in s
    ensures StripCommas(s) == s
  {
    if s != "" {
      StripNone(s[..|s| - 1]);
    }
  }

  /** Grouping only inserts: without its commas it is the string itself. */
  lemma {:induction false} GroupedStrips(n: string)
    requires ',' !in n
    ensures StripCommas(Grouped(n)) == n
  {
    if |n| <= 3 {
      StripNone(n);
    } else {
      var head, tail := n[..|n| - 3], n[|n| - 3..];
      GroupedStrips(head);
      StripSplit(Grouped(head) + ",", tail);
      StripPush(Grouped(head));
      StripNone(tail);
      assert n == head + tail;
    }
  }

  function FromRight(s: string, j: nat): char
    requires j < |s|
  {
    s[|s| - 1 - j]
  }

  /** Counted from the right, every fourth character is a comma and no other is. */
  lemma {:induction false} GroupedCommas(n: string)
    requires ',' !in n
    ensures forall j :: 0 <= j < |Grouped(n)| ==> (FromRight(Grouped(n), j) == ',' <==> j % 4 == 3)
  {
    if |n| <= 3 {
      forall j | 0 <= j < |n| ensures FromRight(n, j) != ',' {
        assert FromRight(n, j) in n;
      }
    } else {
      GroupedCommas(n[..|n| - 3]);
      forall j | 0 <= j < |Grouped(n)|
        ensures FromRight(Grouped(n), j) == ',' <==> j % 4 == 3
      {
        GroupedFromRight(n, j);
      }
    }
  }

  lemma GroupedFromRight(n: string, j: nat)
    requires |n| > 3 && j < |Grouped(n)| && ',' !in n
    ensures j < 3 ==> FromRight(Grouped(n), j) != ','
    ensures j == 3 ==> FromRight(Grouped(n), j) == ','
    ensures j > 3 ==> j - 4 < |Grouped(n[..|n| - 3])| && FromRight(Grouped(n), j) == FromRight(Grouped(n[..|n| - 3]), j - 4)
  {
    var g, h, tail := Grouped(n), Grouped(n[..|n| - 3]), n[|n| - 3..];
    assert g == h + "," + tail;
    if j < 3 {
      assert FromRight(g, j) == tail[2 - j] == n[|n| - 1 - j];
    }
  }

  // ----- Amounts -----

  function TrimZeros(s: string): string {
    if s != "" && s[|s| - 1] == '0' then TrimZeros(s[..|s| - 1]) else s
  }

  /** How many digits of the fraction may be shown. */
  function FracDigits(whole: int): nat {
    if whole >= 1000000 then 0 else if whole >= 1000 then 1 else if whole >= 1 then 3 else 6
  }

  /** The digits before and after the point, the latter padded to `decimals`. */
  function Parts(raw: nat, decimals: nat): (string, string) {
    var s := ToDecimal(raw);
    if |s| <= decimals then ("0", Zeros(decimals - |s|) + s) else (s[..|s| - decimals], s[|s| - decimals..])
  }

  function FormatAmount(raw: nat, decimals: nat): string {
    if raw == 0 then "0"
    else if decimals == 0 then ToDecimal(raw)
    else
      var (whole, frac) := Parts(raw, decimals);
      var trimmed := TrimZeros(frac);
      var digits := if Value(whole) < 1 && trimmed == "" then 0 else FracDigits(Value(whole));
      if digits == 0 || trimmed == "" then Grouped(whole)
      else Grouped(whole) + "." + if |trimmed| > digits then trimmed[..digits] else trimmed
  }

  /** Reading a rendered amount back: all digits as one number, and how many follow the point. */
  function Reading(out: string): (nat, nat) {
    var s := StripCommas(out);
    var p := PointIndex(s);
    if p == |s| then (Value(s), 0) else (Value(s[..p] + s[p + 1..]), |s| - p - 1)
  }

  function PointIndex(s: string): (p: nat)
    ensures p <= |s|
  {
    if s == "" || s[0] == '.' then 0 else 1 + PointIndex(s[1..])
  }

  lemma {:induction false} PointAfter(w: string, f: string)
    requires '.' !in w
    ensures PointIndex(w + "." + f) == |w| && PointIndex(w) == |w|
  {
    if w != "" {
      assert (w + "." + f)[1..] == w[1..] + "." + f;
      PointAfter(w[1..], f);
    } else {
      assert w + "." + f == "." + f;
    }
  }

  lemma DigitsAreDigits(s: string)
    requires AllDigits(s)
    ensures ',' !in s && '.' !in s
  {
  }

  lemma {:induction false} ReadingBack(w: string, f: string)
    requires AllDigits(w) && AllDigits(f)
    ensures Reading(Grouped(w)) == (Value(w), 0)
    ensures Reading(Grouped(w) + "." + f) == (Value(w + f), |f|)
  {
    DigitsAreDigits(w);
    DigitsAreDigits(f);
    GroupedStrips(w);
    StripSplit(Grouped(w) + ".", f);
    StripDot(Grouped(w));
    StripNone(f);
    PointAfter(w, f);
    var s := w + "." + f;
    assert s[..|w|] == w && s[|w| + 1..] == f;
  }

  lemma StripDot(s: string)
    ensures StripCommas(s + ".") == StripCommas(s) + "."
  {
    assert (s + ".")[..|s|] == s;
  }

  lemma PadKeepsValue(s: string, k: nat)
    requires AllDigits(s)
    ensures AllDigits(Zeros(k) + s) && Value(Zeros(k) + s) == Value(s)
  {
    ZerosValue(k);
    ValueSplit(Zeros(k), s);
  }

  /** Whole part and fraction are the quotient and the remainder, digit by digit. */
  lemma PartsAreDigits(raw: nat, decimals: nat)
    ensures var (whole, frac) := Parts(raw, decimals);
            && AllDigits(whole) && AllDigits(frac) && |frac| == decimals
            && Value(whole) * Pow10(decimals) + Value(frac) == raw
  {
    var s := ToDecimal(raw);
    DecimalRoundTrip(raw);
    if |s| <= decimals {
      PadKeepsValue(s, decimals - |s|);
      assert Value("0") * Pow10(decimals) == 0;
    } else {
      CutKeepsValue(s, |s| - decimals);
    }
  }

  lemma CutKeepsValue(s: string, cut: nat)
    requires AllDigits(s) && cut <= |s|
    ensures AllDigits(s[..cut]) && AllDigits(s[cut..])
    ensures Value(s[..cut]) * Pow10(|s| - cut) + Value(s[cut..]) == Value(s)
  {
    assert s == s[..cut] + s[cut..];
    ValueSplit(s[..cut], s[cut..]);
  }

  /** Trimming drops only zeroes. */
  lemma {:induction false} TrimSplits(s: string)
    ensures var t := TrimZeros(s); |t| <= |s| && s == t + Zeros(|s| - |t|)
  {
    if s != "" && s[|s| - 1] == '0' {
      var n := |s| - 1;
      TrimSplits(s[..n]);
      var t := TrimZeros(s);
      assert s == s[..n] + ['0'];
      assert Zeros(n - |t|) + ['0'] == Zeros(|s| - |t|);
      assert t + Zeros(|s| - |t|) == (t + Zeros(n - |t|)) + ['0'];
    } else {
      assert s == s + Zeros(0);
    }
  }

  /** What is shown of a fraction is a prefix, and if it is shorter than allowed the rest is zeroes. */
  lemma ShownFraction(frac: string, digits: nat)
    ensures var t := TrimZeros(frac); var shown := if |t| > digits then t[..digits] else t;
            && |shown| <= |frac| && shown == frac[..|shown|] && |shown| <= digits
            && (|shown| == digits || Value(frac[|shown|..]) == 0)
  {
    TrimSplits(frac);
    var t := TrimZeros(frac);
    var shown := if |t| > digits then t[..digits] else t;
    assert frac[..|t|] == t;
    if |t| <= digits {
      assert frac[|t|..] == Zeros(|frac| - |t|);
      ZerosValue(|frac| - |t|);
    } else {
      assert shown == frac[..digits];
    }
  }

  /** What is lost by showing `f` digits: the value of the digits after them. */
  lemma Lost(whole: string, frac: string, f: nat)
    requires f <= |frac|
    ensures Value(whole + frac[..f]) * Pow10(|frac| - f) + Value(frac[f..]) == Value(whole) * Pow10(|frac|) + Value(frac)
  {
    assert whole + frac == (whole + frac[..f]) + frac[f..];
    ValueSplit(whole + frac[..f], frac[f..]);
    ValueSplit(whole, frac);
  }

  lemma LostIsSmall(rest: nat, k: nat, f: nat, decimals: nat)
    requires f <= decimals && f <= k && rest < Pow10(decimals - f) && (f == k || rest == 0)
    ensures rest * Pow10(k) < Pow10(decimals)
  {
    if f == k {
      PowSplit(decimals - k, k);
      MulLess(rest, Pow10(decimals - k), Pow10(k));
    }
  }

  // ----- What is printed -----

  lemma Tenfold(n: nat, q: nat, p: nat)
    requires q * (10 * p) <= n < (q + 1) * (10 * p)
    ensures q * p <= n / 10 < (q + 1) * p
  {
    assert q * (10 * p) == 10 * (q * p) && (q + 1) * (10 * p) == 10 * ((q + 1) * p);
    TenthBetween(n, q * p, (q + 1) * p);
  }

  lemma TenthBetween(n: nat, a: nat, b: nat)
    requires 10 * a <= n < 10 * b
    ensures a <= n / 10 < b
  {
  }

  /** Cutting digits off the right divides. */
  lemma {:induction false} CutDivides(n: nat, d: nat, q: nat)
    requires |ToDecimal(n)| > d && q * Pow10(d) <= n < (q + 1) * Pow10(d)
    ensures ToDecimal(n)[..|ToDecimal(n)| - d] == ToDecimal(q)
  {
    var s := ToDecimal(n);
    if d == 0 {
      assert s[..|s|] == s;
    } else {
      Tenfold(n, q, Pow10(d - 1));
      CutDivides(n / 10, d - 1, q);
      assert s[..|s| - d] == ToDecimal(n / 10)[..|s| - d];
    }
  }

  lemma Remainder(n: nat, d: nat, q: nat, r: nat)
    requires d > 0 && n == q * d + r && r < d
    ensures n / d == q && n % d == r
    ensures q * d <= n < (q + 1) * d
  {
    Quotient(n, d, q, r);
    assert (q + 1) * d == q * d + d;
  }

  /** The digits before the point are those of the quotient. */
  lemma WholeIsDecimal(raw: nat, decimals: nat, q: nat)
    requires q * Pow10(decimals) <= raw < (q + 1) * Pow10(decimals) && q == Value(Parts(raw, decimals).0)
    ensures Parts(raw, decimals).0 == ToDecimal(q)
  {
    if |ToDecimal(raw)| <= decimals {
      assert Value("0") == 0;
    } else {
      CutDivides(raw, decimals, q);
    }
  }

  /** Parts and their values, without a division. */
  ghost predicate PartsOf(raw: nat, decimals: nat, whole: string, frac: string, q: nat) {
    && whole == ToDecimal(q) && Value(whole) == q
    && |frac| == decimals && AllDigits(frac)
    && q * Pow10(decimals) + Value(frac) == raw && Value(frac) < Pow10(decimals)
  }

  lemma PartsAre(raw: nat, decimals: nat, whole: string, frac: string)
    requires (whole, frac) == Parts(raw, decimals)
    ensures PartsOf(raw, decimals, whole, frac, Value(whole))
  {
    PartsAreDigits(raw, decimals);
    ValueBound(frac);
    Remainder(raw, Pow10(decimals), Value(whole), Value(frac));
    WholeIsDecimal(raw, decimals, Value(whole));
  }

  /** The whole part is the quotient without leading zeroes, the fraction the remainder with
      all of its digits. */
  lemma PartsMean(raw: nat, decimals: nat, whole: string, frac: string)
    requires (whole, frac) == Parts(raw, decimals)
    ensures whole == ToDecimal(raw / Pow10(decimals)) && Value(whole) == raw / Pow10(decimals)
    ensures |frac| == decimals && AllDigits(frac) && Value(frac) == raw % Pow10(decimals)
  {
    PartsAre(raw, decimals, whole, frac);
    Remainder(raw, Pow10(decimals), Value(whole), Value(frac));
  }

  /** Of at most `m` allowed digits of the fraction `f` are shown: all `m`, the last of them or
      one after it not zero, or fewer, with nothing lost and no zero at the end. */
  ghost predicate Shown(frac: string, f: nat, m: nat) {
    && f <= m && f <= |frac|
    && (f < m ==> Value(frac[f..]) == 0 && (f > 0 ==> frac[f - 1] != '0'))
    && (f == m && m > 0 ==> Value(frac[m - 1..]) > 0)
  }

  lemma {:induction false} EndsInDigit(s: string)
    requires AllDigits(s)
    ensures var t := TrimZeros(s); t != "" ==> t[|t| - 1] != '0' && |t| <= |s| && t[|t| - 1] == s[|t| - 1]
  {
    if s != "" && s[|s| - 1] == '0' {
      EndsInDigit(s[..|s| - 1]);
    }
  }

  lemma {:induction false} DigitCounts(s: string, i: nat)
    requires AllDigits(s) && i < |s| && s[i] != '0'
    ensures Value(s) > 0
  {
    if i < |s| - 1 {
      DigitCounts(s[..|s| - 1], i);
    }
  }

  /** With at least `m` significant digits, the last of the `m` or one after it is not zero. */
  lemma SignificantTail(frac: string, m: nat)
    requires AllDigits(frac) && 0 < m <= |TrimZeros(frac)|
    ensures |TrimZeros(frac)| <= |frac| && Value(frac[m - 1..]) > 0
  {
    var t := TrimZeros(frac);
    EndsInDigit(frac);
    assert frac[m - 1..][|t| - m] == frac[|t| - 1];
    DigitCounts(frac[m - 1..], |t| - m);
  }

  lemma TrimShows(frac: string, m: nat)
    requires AllDigits(frac)
    ensures Shown(frac, Min(m, |TrimZeros(frac)|), m)
  {
    var t := TrimZeros(frac);
    ShownFraction(frac, m);
    EndsInDigit(frac);
    if 0 < m <= |t| {
      SignificantTail(frac, m);
    }
  }

  /** What a rendering consists of: the grouped whole part and, after a point, the first
      `f` digits of the fraction. */
  lemma {:induction false} FormatShape(raw: nat, decimals: nat, whole: string, frac: string) returns (f: nat)
    requires raw > 0 && decimals > 0 && (whole, frac) == Parts(raw, decimals) && |frac| == decimals && AllDigits(frac)
    ensures Shown(frac, f, FracDigits(Value(whole)))
    ensures FormatAmount(raw, decimals) == if f == 0 then Grouped(whole) else Grouped(whole) + "." + frac[..f]
  {
    var k := FracDigits(Value(whole));
    ShownFraction(frac, k);
    TrimShows(frac, k);
    f := Min(k, |TrimZeros(frac)|);
  }

  /** How many digits are allowed. */
  lemma DigitsAllowed(q: nat)
    ensures q >= 1000000 ==> FracDigits(q) == 0
    ensures 1000 <= q < 1000000 ==> FracDigits(q) == 1
    ensures 1 <= q < 1000 ==> FracDigits(q) == 3
    ensures q == 0 ==> FracDigits(q) == 6
  {
  }

  ghost predicate ShownBySize(frac: string, f: nat, q: nat) {
    && f <= |frac|
    && (q >= 1000000 ==> f == 0)
    && (1000 <= q < 1000000 ==> Shown(frac, f, 1))
    && (1 <= q < 1000 ==> Shown(frac, f, 3))
    && (q == 0 ==> Shown(frac, f, 6))
  }

  /** The rendering of every amount with decimals: the quotient in groups of three and, after a
      point, up to 0, 1, 3 or 6 digits of the remainder, by the size of the quotient. */
  lemma FormatMeans(raw: nat, decimals: nat, q: nat, r: nat) returns (frac: string, f: nat)
    requires raw > 0 && decimals > 0 && q == raw / Pow10(decimals) && r == raw % Pow10(decimals)
    ensures |frac| == decimals && AllDigits(frac) && Value(frac) == r
    ensures ShownBySize(frac, f, q)
    ensures FormatAmount(raw, decimals) == if f == 0 then Grouped(ToDecimal(q)) else Grouped(ToDecimal(q)) + "." + frac[..f]
  {
    var (whole, fr) := Parts(raw, decimals);
    frac := fr;
    PartsMean(raw, decimals, whole, frac);
    f := FormatShape(raw, decimals, whole, frac);
    DigitsAllowed(q);
  }

  /** `shown / 10^scale` is at most the amount, with at most `m` digits after the point, and the
      amount is less than the `unit`-th part of one above it. */
  ghost predicate Truncates(raw: nat, decimals: nat, shown: nat, scale: nat, m: nat, unit: nat) {
    && scale <= decimals && scale <= m
    && shown * Pow10(decimals - scale) <= raw
    && (raw - shown * Pow10(decimals - scale)) * unit < Pow10(decimals)
  }

  lemma {:induction false} CutTruncates(raw: nat, decimals: nat, whole: string, frac: string, f: nat, m: nat)
    requires |frac| == decimals && Value(whole) * Pow10(decimals) + Value(frac) == raw && Shown(frac, f, m)
    ensures Truncates(raw, decimals, Value(whole + frac[..f]), f, m, Pow10(m))
  {
    Lost(whole, frac, f);
    ValueBound(frac[f..]);
    LostIsSmall(Value(frac[f..]), m, f, decimals);
  }

  lemma Units()
    ensures Pow10(0) == 1 && Pow10(1) == 10 && Pow10(3) == 1000 && Pow10(6) == 1000000
  {
    assert Pow10(2) == 100 && Pow10(3) == 1000 && Pow10(4) == 10000 && Pow10(5) == 100000;
  }

  lemma AmountTruncates(raw: nat, decimals: nat, q: nat) returns (shown: nat, scale: nat)
    requires raw > 0 && decimals > 0 && q == raw / Pow10(decimals)
    ensures (shown, scale) == Reading(FormatAmount(raw, decimals))
    ensures Truncates(raw, decimals, shown, scale, FracDigits(q), Pow10(FracDigits(q)))
  {
    var (whole, frac) := Parts(raw, decimals);
    PartsMean(raw, decimals, whole, frac);
    PartsAre(raw, decimals, whole, frac);
    var f := FormatShape(raw, decimals, whole, frac);
    CutTruncates(raw, decimals, whole, frac, f, FracDigits(q));
    DecimalRoundTrip(q);
    ReadingBack(whole, frac[..f]);
    assert whole + frac[..0] == whole;
    shown, scale := Value(whole + frac[..f]), f;
  }

  /** The bound by the size of the whole part, in numerals. */
  ghost predicate TruncatesBySize(raw: nat, decimals: nat, shown: nat, scale: nat, q: nat) {
    && (q >= 1000000 ==> Truncates(raw, decimals, shown, scale, 0, 1))
    && (1000 <= q < 1000000 ==> Truncates(raw, decimals, shown, scale, 1, 10))
    && (1 <= q < 1000 ==> Truncates(raw, decimals, shown, scale, 3, 1000))
    && (q == 0 ==> Truncates(raw, decimals, shown, scale, 6, 1000000))
  }

  lemma BySize(raw: nat, decimals: nat, shown: nat, scale: nat, q: nat)
    requires Truncates(raw, decimals, shown, scale, FracDigits(q), Pow10(FracDigits(q)))
    ensures TruncatesBySize(raw, decimals, shown, scale, q)
  {
    DigitsAllowed(q);
    Units();
  }

  /** Every rendered amount, read back with its commas stripped, is at most the amount and less
      than one unit of its last allowed digit below: a millionth under one, a thousandth from
      one on, a tenth from a thousand on, and one from a million on. */
  lemma AmountIsTruncation(raw: nat, decimals: nat, q: nat) returns (shown: nat, scale: nat)
    requires raw > 0 && decimals > 0 && q == raw / Pow10(decimals)
    ensures (shown, scale) == Reading(FormatAmount(raw, decimals))
    ensures TruncatesBySize(raw, decimals, shown, scale, q)
  {
    shown, scale := AmountTruncates(raw, decimals, q);
    BySize(raw, decimals, shown, scale, q);
  }

  lemma Quotient(n: nat, d: nat, q: nat, r: nat)
    requires d > 0 && n == q * d + r && r < d
    ensures n / d == q
  {
    if n / d < q {
      MulLe(n / d + 1, q, d);
    } else if n / d > q {
      MulLe(q + 1, n / d, d);
    }
  }

  /** The two cases with no fraction at all are exact. */
  lemma PlainAmounts(raw: nat, decimals: nat)
    requires raw == 0 || decimals == 0
    ensures Reading(FormatAmount(raw, decimals)) == (raw, 0)
  {
    DecimalRoundTrip(raw);
    var s := FormatAmount(raw, decimals);
    assert ToDecimal(0) == "0";
    assert s == ToDecimal(raw);
    DigitsAreDigits(s);
    StripNone(s);
    PointAfter(s, "");
  }
}
