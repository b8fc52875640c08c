/** The part of Python's `float(text)` that bid prices use: surrounding
    whitespace, an optional sign, and a decimal numeral with at most one
    decimal point. The value is an exact `real`. */
module Numbers {

  import opened Wrappers
  import opened Text

  predicate IsDigit(c: char) {
    '0' <= c <= '9'
  }

  predicate AllDigits(s: string) {
    forall i :: 0 <= i < |s| ==> IsDigit(s[i])
  }

  function DigitValue(c: char): (d: nat)
    requires IsDigit(c)
    ensures d < 10
  {
    c as int - '0' as int
  }

  function DigitChar(d: nat): (c: char)
    requires d < 10
    ensures IsDigit(c) && DigitValue(c) == d
  {
    ('0' as int + d) as char
  }

  function Pow10(n: nat): (r: nat)
    ensures r >= 1
  {
    if n == 0 then 1 else 10 * Pow10(n - 1)
  }

  /** The number a string of decimal digits denotes, most significant first;
      it has fewer digits than the string has characters. */
  function DigitsValue(s: string): (r: nat)
    requires AllDigits(s)
    ensures r < Pow10(|s|)
  {
    if s == [] then 0 else DigitsValue(s[..|s| - 1]) * 10 + DigitValue(s[|s| - 1])
  }

  /** Appending digits shifts what is already there. */
  lemma {:induction false} DigitsValueConcat(a: string, b: string)
    requires AllDigits(a) && AllDigits(b)
    ensures AllDigits(a + b)
    ensures DigitsValue(a + b) == DigitsValue(a) * Pow10(|b|) + DigitsValue(b)
  {
    if b == [] {
      assert a + b == a;
    } else {
      var b' := b[..|b| - 1];
      assert (a + b)[..|a + b| - 1] == a + b';
      assert (a + b)[|a + b| - 1] == b[|b| - 1];
      DigitsValueConcat(a, b');
      var x, p, y, d := DigitsValue(a), Pow10(|b'|), DigitsValue(b'), DigitValue(b[|b| - 1]);
      assert DigitsValue(a + b) == DigitsValue(a + b') * 10 + d;
      assert DigitsValue(b) == y * 10 + d;
      assert Pow10(|b|) == p * 10;
      ShiftDigit(x, p, y, d);
    }
  }

  lemma ShiftDigit(x: int, p: int, y: int, d: int)
    ensures (x * p + y) * 10 + d == x * (p * 10) + (y * 10 + d)
  {
  }

  /** The numerals `float` accepts once signs and whitespace are gone: digits,
      or digits around one decimal point with at least one digit in all. */
  ghost predicate IsDecimal(s: string) {
    || (|s| > 0 && AllDigits(s))
    || (exists i :: 0 <= i < |s| && s[i] == '.' && |s| > 1 && AllDigits(s[..i]) && AllDigits(s[i + 1..]))
  }

  /** The value of an unsigned decimal numeral, or `None` when `s` is not
      one. */
  function ParseDecimal(s: string): (r: Option<real>)
    ensures r.Some? <==> IsDecimal(s)
    ensures r.Some? ==> r.value >= 0.0
  {
    var i := Find(s, '.', 0);
    if i == |s| then
      NoPointDecimal(s);
      if |s| > 0 && AllDigits(s) then Some(DigitsValue(s) as real) else None
    else
      PointDecimal(s, i);
      if |s| > 1 && AllDigits(s[..i]) && AllDigits(s[i + 1..]) then
        var whole, frac := s[..i], s[i + 1..];
        FractionNonNegative(DigitsValue(whole), DigitsValue(frac), Pow10(|frac|));
        Some(PointValue(whole, frac))
      else None
  }

  /** The value of the numeral `whole.frac`. */
  function PointValue(whole: string, frac: string): real
    requires AllDigits(whole) && AllDigits(frac)
  {
    DigitsValue(whole) as real + DigitsValue(frac) as real / Pow10(|frac|) as real
  }

  lemma NoPointDecimal(s: string)
    requires Find(s, '.', 0) == |s|
    ensures IsDecimal(s) <==> |s| > 0 && AllDigits(s)
  {
  }

  /** Only the first point can split a numeral into two runs of digits. */
  lemma PointDecimal(s: string, i: nat)
    requires i < |s| && Find(s, '.', 0) == i
    ensures IsDecimal(s) <==> |s| > 1 && AllDigits(s[..i]) && AllDigits(s[i + 1..])
  {
    forall k | 0 <= k < |s| && s[k] == '.' && k != i ensures !AllDigits(s[..k]) {
      assert i < k && s[..k][i] == '.';
    }
  }

  lemma FractionNonNegative(whole: nat, frac: nat, scale: nat)
    requires scale >= 1
    ensures whole as real + frac as real / scale as real >= 0.0
  {
  }

  /** Python's `float(text)` on the numerals above, `None` where it raises
      `ValueError`; blank text never parses. */
  function ParseFloat(text: string): (r: Option<real>)
    ensures AllSpace(text) ==> r.None?
    ensures var t := Strip(text);
      r.Some? <==> if |t| > 0 && (t[0] == '-' || t[0] == '+') then IsDecimal(t[1..]) else IsDecimal(t)
    ensures r.Some? && r.value < 0.0 ==> Strip(text)[0] == '-'
  {
    ParseSigned(Strip(text))
  }

  /** `float` on text that is already stripped: an optional sign, then an
      unsigned numeral. */
  function ParseSigned(t: string): (r: Option<real>)
    ensures r.Some? <==> if |t| > 0 && (t[0] == '-' || t[0] == '+') then IsDecimal(t[1..]) else IsDecimal(t)
    ensures r.Some? && r.value < 0.0 ==> t[0] == '-'
  {
    if |t| > 0 && (t[0] == '-' || t[0] == '+') then
      match ParseDecimal(t[1..])
      case None => None
      case Some(v) => Some(if t[0] == '-' then -v else v)
    else
      assert t == [] ==> !IsDecimal(t);
      ParseDecimal(t)
  }

  /** The decimal numeral of `n`, without leading zeros. */
  function NatString(n: nat): (r: string)
    ensures |r| > 0 && AllDigits(r) && DigitsValue(r) == n
    ensures '.' !in r
    ensures r[0] != '0' || n == 0
  {
    if n < 10 then [DigitChar(n)]
    else
      var init := NatString(n / 10);
      var r := init + [DigitChar(n % 10)];
      assert r[..|r| - 1] == init;
      r
  }

  lemma DigitIsNotSpace(c: char)
    requires IsDigit(c)
    ensures !IsSpace(c)
  {
  }

  /** A numeral without a point parses to the number it spells. */
  lemma ParseDigits(s: string)
    requires |s| > 0 && AllDigits(s)
    ensures ParseDecimal(s) == Some(DigitsValue(s) as real)
  {
    assert forall k :: 0 <= k < |s| ==> s[k] != '.';
  }

  /** `float` reads a bare numeral as the number it spells. */
  lemma ParseFloatDigits(s: string)
    requires |s| > 0 && AllDigits(s)
    ensures ParseFloat(s) == Some(DigitsValue(s) as real)
  {
    DigitIsNotSpace(s[0]);
    DigitIsNotSpace(s[|s| - 1]);
    StripUnpadded(s);
    assert IsDigit(s[0]);
    ParseDigits(s);
  }

  /** `float` reads a numeral after a minus sign as its negation, e.g. `-500`. */
  lemma ParseFloatNegative(t: string)
    requires |t| > 1 && t[0] == '-' && AllDigits(t[1..])
    ensures ParseFloat(t) == Some(-(DigitsValue(t[1..]) as real))
  {
    SignedStripped(t);
    SignedDigits(t);
  }

  lemma SignedDigits(t: string)
    requires |t| > 1 && t[0] == '-' && AllDigits(t[1..])
    ensures ParseSigned(t) == Some(-(DigitsValue(t[1..]) as real))
  {
    ParseDigits(t[1..]);
    ParseSignedMinus(t, DigitsValue(t[1..]) as real);
  }

  lemma SignedStripped(t: string)
    requires |t| > 1 && t[0] == '-' && AllDigits(t[1..])
    ensures ParseFloat(t) == ParseSigned(t)
  {
    SignedUnpadded(t);
  }

  lemma ParseSignedMinus(t: string, v: real)
    requires |t| > 0 && t[0] == '-' && ParseDecimal(t[1..]) == Some(v)
    ensures ParseSigned(t) == Some(-v)
  {
  }

  /** A sign before digits leaves nothing for `strip()` to remove. */
  lemma SignedUnpadded(t: string)
    requires |t| > 1 && t[0] == '-' && AllDigits(t[1..])
    ensures Strip(t) == t
  {
    assert t[|t| - 1] == t[1..][|t| - 2];
    DigitIsNotSpace(t[|t| - 1]);
    StripUnpadded(t);
  }

  /** Whitespace around a numeral does not change what `float` reads. */
  lemma ParseFloatPadded(p: string, x: string, q: string)
    requires AllSpace(p) && AllSpace(q)
    requires x == [] || (!IsSpace(x[0]) && !IsSpace(x[|x| - 1]))
    ensures ParseFloat(p + x + q) == ParseFloat(x)
  {
    StripPadded(p, x, q);
    StripUnpadded(x);
    ParseFloatSameStrip(p + x + q, x);
  }

  /** `float` looks at its text only once it is stripped. */
  lemma ParseFloatSameStrip(a: string, b: string)
    requires Strip(a) == Strip(b)
    ensures ParseFloat(a) == ParseFloat(b)
  {
  }

  /** `float(str(n)) == n`. */
  lemma ParseFloatNatString(n: nat)
    ensures ParseFloat(NatString(n)) == Some(n as real)
  {
    ParseFloatDigits(NatString(n));
  }

  /** `float` reads digits around a point as the whole part plus the
      fraction scaled by its number of digits, e.g. `1234.56`. */
  lemma ParseFloatPoint(w: string, f: string)
    requires AllDigits(w) && AllDigits(f) && |w| + |f| > 0
    ensures ParseFloat(w + "." + f) == Some(PointValue(w, f))
  {
    var s := w + "." + f;
    PointUnpadded(w, f);
    StripUnpadded(s);
    ParseDecimalPoint(w, f);
  }

  lemma PointUnpadded(w: string, f: string)
    requires AllDigits(w) && AllDigits(f)
    ensures var s := w + "." + f; !IsSpace(s[0]) && !IsSpace(s[|s| - 1]) && s[0] != '-' && s[0] != '+'
  {
    var s := w + "." + f;
    if w != [] { assert s[0] == w[0]; DigitIsNotSpace(w[0]); }
    if f != [] { assert s[|s| - 1] == f[|f| - 1]; DigitIsNotSpace(f[|f| - 1]); }
  }

  lemma ParseDecimalPoint(w: string, f: string)
    requires AllDigits(w) && AllDigits(f) && |w| + |f| > 0
    ensures ParseDecimal(w + "." + f) == Some(PointValue(w, f))
  {
    var s := w + "." + f;
    FindPoint(w, f);
    assert s[..|w|] == w && s[|w| + 1..] == f;
    ParseDecimalAt(s, |w|);
  }

  /** A numeral whose first point is at `i` has the value of its two runs of
      digits. */
  lemma ParseDecimalAt(s: string, i: nat)
    requires i < |s| && Find(s, '.', 0) == i && |s| > 1
    requires AllDigits(s[..i]) && AllDigits(s[i + 1..])
    ensures ParseDecimal(s) == Some(PointValue(s[..i], s[i + 1..]))
  {
  }

  lemma FindPoint(w: string, f: string)
    requires AllDigits(w)
    ensures Find(w + "." + f, '.', 0) == |w|
  {
    var s := w + "." + f;
    assert s[|w|] == '.';
    assert forall k :: 0 <= k < |w| ==> s[k] == w[k];
  }

  /** `n < 1000` written with exactly three digits. */
  function Pad3(m: nat): (r: string)
    requires m < 1000
    ensures |r| == 3 && AllDigits(r) && DigitsValue(r) == m && ',' !in r
  {
    var r := [DigitChar(m / 100), DigitChar(m / 10 % 10), DigitChar(m % 10)];
    assert r[..2][..1] == [r[0]] && r[..2][..1][..0] == [];
    assert DigitsValue(r[..2][..1]) == m / 100;
    assert DigitsValue(r[..2]) == m / 100 * 10 + m / 10 % 10;
    assert DigitsValue(r) == (m / 100 * 10 + m / 10 % 10) * 10 + m % 10;
    r
  }

  /** `n` written with a comma between each group of three digits, as in
      "125,000". */
  function Grouped(n: nat): string {
    if n < 1000 then NatString(n) else Grouped(n / 1000) + "," + Pad3(n % 1000)
  }

  /** Removing the thousands separators from `Grouped(n)` leaves a numeral for
      `n`, so that the price parser reads back the amount. */
  lemma {:induction false} GroupedDigits(n: nat)
    ensures var d := Without(Grouped(n), ',');
      |d| > 0 && AllDigits(d) && DigitsValue(d) == n
  {
    if n >= 1000 {
      GroupedDigits(n / 1000);
      WithoutGroupedStep(n);
      GroupValue(Without(Grouped(n / 1000), ','), n);
    }
  }

  /** The separators of `Grouped(n)` that go are those of its leading groups
      and the comma before the last group. */
  lemma WithoutGroupedStep(n: nat)
    requires n >= 1000
    ensures Without(Grouped(n), ',') == Without(Grouped(n / 1000), ',') + Pad3(n % 1000)
  {
    WithoutSeparator(Grouped(n / 1000), ",", Pad3(n % 1000), ',');
  }

  lemma WithoutSeparator(g: string, sep: string, p: string, c: char)
    requires sep == [c] && c !in p
    ensures Without(g + sep + p, c) == Without(g, c) + p
  {
    WithoutConcat(g + sep, p, c);
    WithoutDropsLast(g, sep, c);
    WithoutKeeps(p, c);
  }

  lemma WithoutDropsLast(g: string, sep: string, c: char)
    requires sep == [c]
    ensures Without(g + sep, c) == Without(g, c)
  {
    WithoutConcat(g, sep, c);
    assert sep[1..] == [];
  }

  lemma WithoutKeeps(p: string, c: char)
    requires c !in p
    ensures Without(p, c) == p
  {
    assert forall i :: 0 <= i < |p| ==> p[i] != c;
  }

  lemma GroupValue(d: string, n: nat)
    requires n >= 1000 && AllDigits(d) && DigitsValue(d) == n / 1000
    ensures DigitsValue(d + Pad3(n % 1000)) == n
  {
    var q, m := n / 1000, n % 1000;
    var p := Pad3(m);
    DigitsValueConcat(d, p);
    assert Pow10(|p|) == 1000 by { assert Pow10(3) == 1000; }
    assert DigitsValue(d + p) == q * 1000 + m;
  }

  /** `float("125,000".replace(",", "")) == 125000.0`, for every amount. */
  lemma ParseFloatGrouped(n: nat)
    ensures ParseFloat(Without(Grouped(n), ',')) == Some(n as real)
  {
    GroupedDigits(n);
    ParseFloatDigits(Without(Grouped(n), ','));
  }
}
