/**
 * JavaScript's string-to-number conversions as the forms use them, for decimal
 * literals only: an optional sign, ASCII digits and an optional fraction.
 * `Number(s)` (what `isNaN` tests) needs the whole trimmed string to be such a
 * literal; `parseFloat(s)` and `parseInt(s)` read the longest such prefix after
 * leading whitespace. `None` stands for `NaN`. Amounts are exact reals.
 */
module Numbers {
  import opened Wrappers
  import opened Text

  /** The longest run of digits at the front of `s`. */
  function DigitRun(s: string): (r: string)
    ensures r <= s && AllDigits(r)
    ensures |r| < |s| ==> !IsDigit(s[|r|])
  {
    if |s| > 0 && IsDigit(s[0]) then [s[0]] + DigitRun(s[1..]) else []
  }

  /** A run of digits followed by a non-digit is the whole run. */
  lemma {:induction false} DigitRunStops(a: string, b: string)
    requires AllDigits(a)
    requires b == [] || !IsDigit(b[0])
    ensures DigitRun(a + b) == a
  {
    if a != [] {
      assert (a + b)[1..] == a[1..] + b;
      DigitRunStops(a[1..], b);
      assert [a[0]] + a[1..] == a;
    } else {
      assert a + b == b;
    }
  }

  /** The longest decimal-literal prefix of a string, split into its parts. */
  datatype Literal = Literal(negative: bool, whole: string, frac: string, rest: string) {
    predicate HasDigits() { |whole| + |frac| > 0 }
  }

  /** Scans `[+-]? digits* ('.' digits*)?` from the front of `s`. */
  function Scan(s: string): (l: Literal)
    ensures AllDigits(l.whole) && AllDigits(l.frac)
  {
    if |s| > 0 && (s[0] == '-' || s[0] == '+') then ScanUnsigned(s[0] == '-', s[1..])
    else ScanUnsigned(false, s)
  }

  /** Scans `digits* ('.' digits*)?` once the sign has been read. */
  function ScanUnsigned(negative: bool, t: string): (l: Literal)
    ensures AllDigits(l.whole) && AllDigits(l.frac)
  {
    var w := DigitRun(t);
    var u := t[|w|..];
    if |u| > 0 && u[0] == '.' then
      var f := DigitRun(u[1..]);
      Literal(negative, w, f, u[1..][|f|..])
    else Literal(negative, w, "", u)
  }

  /** Whitespace never starts a digit run or a fraction. */
  lemma SpaceStartsNoLiteral(w: string)
    requires AllSpace(w)
    ensures w == [] || (!IsDigit(w[0]) && w[0] != '.')
  {
    if w != [] { assert IsSpace(w[0]); }
  }

  /** Digits followed by whitespace scan as a whole number with the whitespace left over. */
  lemma ScanWholeThenSpace(negative: bool, wd: string, w: string)
    requires AllDigits(wd) && AllSpace(w)
    ensures ScanUnsigned(negative, wd + w) == Literal(negative, wd, "", w)
  {
    SpaceStartsNoLiteral(w);
    DigitRunStops(wd, w);
    assert (wd + w)[|wd|..] == w;
  }

  /** Digits, a dot, digits and whitespace scan as a literal with a fraction and the whitespace left over. */
  lemma ScanFractionThenSpace(negative: bool, wd: string, f: string, w: string)
    requires AllDigits(wd) && AllDigits(f) && AllSpace(w)
    ensures ScanUnsigned(negative, wd + ['.'] + f + w) == Literal(negative, wd, f, w)
  {
    SpaceStartsNoLiteral(w);
    var s := wd + ['.'] + f + w;
    assert s == wd + (['.'] + f + w);
    DigitRunStops(wd, ['.'] + f + w);
    assert s[|wd|..] == ['.'] + f + w;
    assert s[|wd|..][1..] == f + w;
    DigitRunStops(f, w);
    assert (f + w)[|f|..] == w;
  }

  /** A fully scanned unsigned literal is its whole digits, optionally followed by a dot and its fraction digits. */
  lemma ScanShape(negative: bool, t: string)
    requires ScanUnsigned(negative, t).rest == []
    ensures var l := ScanUnsigned(negative, t);
      || (t == l.whole && l.frac == [])
      || t == l.whole + ['.'] + l.frac
  {
    var wd := DigitRun(t);
    var u := t[|wd|..];
    assert t == wd + u;
    if |u| > 0 && u[0] == '.' {
      var v := u[1..];
      var f := DigitRun(v);
      assert ScanUnsigned(negative, t) == Literal(negative, wd, f, v[|f|..]);
      assert v == f + v[|f|..];
      assert v == f;
      assert u == ['.'] + v;
      assert t == wd + ['.'] + f;
    } else {
      assert ScanUnsigned(negative, t) == Literal(negative, wd, "", u);
      assert t == wd;
    }
  }

  lemma ScanUnsignedTrailingSpace(negative: bool, t: string, w: string)
    requires ScanUnsigned(negative, t).rest == []
    requires AllSpace(w)
    ensures ScanUnsigned(negative, t + w) == ScanUnsigned(negative, t).(rest := w)
  {
    var l := ScanUnsigned(negative, t);
    ScanShape(negative, t);
    if t == l.whole && l.frac == [] {
      ScanWholeThenSpace(negative, l.whole, w);
    } else {
      assert t + w == l.whole + ['.'] + l.frac + w;
      ScanFractionThenSpace(negative, l.whole, l.frac, w);
    }
  }

  /** Appending whitespace to a fully scanned literal only lengthens what is left over. */
  lemma ScanIgnoresTrailingSpace(t: string, w: string)
    requires Scan(t).rest == [] && Scan(t).HasDigits()
    requires AllSpace(w)
    ensures Scan(t + w) == Scan(t).(rest := w)
  {
    if |t| > 0 && (t[0] == '-' || t[0] == '+') {
      assert (t + w)[1..] == t[1..] + w;
      ScanUnsignedTrailingSpace(t[0] == '-', t[1..], w);
    } else {
      ScanUnsignedTrailingSpace(false, t, w);
    }
  }

  /** The value of a digit string. */
  function Digits(ds: string): nat
    requires AllDigits(ds)
  {
    if ds == [] then 0
    else Digits(ds[..|ds| - 1]) * 10 + (ds[|ds| - 1] as int - '0' as int)
  }

  function Pow10(n: nat): (p: nat)
    ensures p >= 1
  {
    if n == 0 then 1 else 10 * Pow10(n - 1)
  }

  /** A digit run stops where the digits stop, whatever follows a non-digit. */
  lemma {:induction false} DigitRunPrefix(u: string, w: string)
    requires w == [] || !IsDigit(w[0])
    ensures DigitRun(u + w) == DigitRun(u)
  {
    if u == [] {
      assert u + w == w;
    } else {
      assert (u + w)[0] == u[0] && (u + w)[1..] == u[1..] + w;
      if IsDigit(u[0]) {
        DigitRunPrefix(u[1..], w);
      }
    }
  }

  /** Appending text that starts with neither a digit nor a dot leaves an unsigned literal's parts alone. */
  lemma ScanUnsignedPrefix(negative: bool, u: string, w: string)
    requires w == [] || (!IsDigit(w[0]) && w[0] != '.')
    ensures var a, b := ScanUnsigned(negative, u + w), ScanUnsigned(negative, u);
      a.negative == b.negative && a.whole == b.whole && a.frac == b.frac
  {
    var wd := DigitRun(u);
    DigitRunPrefix(u, w);
    var v := u[|wd|..];
    assert (u + w)[|wd|..] == v + w;
    if |v| > 0 {
      assert (v + w)[0] == v[0] && (v + w)[1..] == v[1..] + w;
      if v[0] == '.' {
        DigitRunPrefix(v[1..], w);
      }
    } else {
      assert v + w == w;
    }
  }

  /** The same for a signed literal, when the appended text does not start with a sign either. */
  lemma ScanPrefix(u: string, w: string)
    requires w == [] || (!IsDigit(w[0]) && w[0] != '.' && w[0] != '-' && w[0] != '+')
    ensures var a, b := Scan(u + w), Scan(u);
      a.negative == b.negative && a.whole == b.whole && a.frac == b.frac
  {
    if u == [] {
      assert u + w == w;
      ScanUnsignedPrefix(false, u, w);
    } else {
      assert (u + w)[0] == u[0] && (u + w)[1..] == u[1..] + w;
      if u[0] == '-' || u[0] == '+' {
        ScanUnsignedPrefix(u[0] == '-', u[1..], w);
      } else {
        ScanUnsignedPrefix(false, u, w);
      }
    }
  }

  /** The value a scanned literal denotes. */
  function Value(l: Literal): real
    requires AllDigits(l.whole) && AllDigits(l.frac)
  {
    var magnitude := Digits(l.whole) as real + Digits(l.frac) as real / Pow10(|l.frac|) as real;
    if l.negative then -magnitude else magnitude
  }

  /** `Number(s)`: blank strings are 0; otherwise the trimmed string must be one literal. */
  function NumberOf(s: string): Option<real> {
    var t := Trim(s);
    if t == [] then Some(0.0)
    else
      var l := Scan(t);
      if l.HasDigits() && l.rest == [] then Some(Value(l)) else None
  }

  /** `parseFloat(s)`: the longest literal prefix after leading whitespace. */
  function ParseFloat(s: string): Option<real> {
    var l := Scan(TrimStart(s));
    if l.HasDigits() then Some(Value(l)) else None
  }

  /** `parseInt(s)` in base 10: sign and digits after leading whitespace, fraction dropped. */
  function ParseInt(s: string): Option<int> {
    WholePart(Scan(TrimStart(s)))
  }

  /** The signed integer part of a literal, when it has whole digits. */
  function WholePart(l: Literal): Option<int>
    requires AllDigits(l.whole)
  {
    var n: int := Digits(l.whole);
    if |l.whole| > 0 then Some(if l.negative then -n else n) else None
  }

  /** A numeric string scans, after its leading whitespace, to its trimmed literal. */
  lemma TrimmedScan(s: string)
    requires Trim(s) != [] && NumberOf(s).Some?
    ensures Scan(TrimStart(s)) == Scan(Trim(s)).(rest := Scan(TrimStart(s)).rest)
    ensures Scan(Trim(s)).HasDigits()
  {
    var t := TrimStart(s);
    TrimEndShape(t);
    var r := TrimEnd(t);
    assert r == Trim(s);
    var l := Scan(r);
    assert l.HasDigits() && l.rest == [];
    ScanIgnoresTrailingSpace(r, t[|r|..]);
    assert t == r + t[|r|..];
  }

  /** On a non-blank numeric string, `parseFloat` reads the same value as `Number`. */
  lemma {:induction false} ParseFloatAgrees(s: string)
    requires Trim(s) != [] && NumberOf(s).Some?
    ensures ParseFloat(s) == NumberOf(s)
  {
    TrimmedScan(s);
    var a := Scan(TrimStart(s));
    var b := Scan(Trim(s));
    assert a.whole == b.whole && a.frac == b.frac && a.negative == b.negative;
    assert Value(a) == Value(b);
  }

  lemma SameValue(a: Literal, b: Literal)
    requires AllDigits(a.whole) && AllDigits(a.frac)
    requires a.negative == b.negative && a.whole == b.whole && a.frac == b.frac
    ensures Value(a) == Value(b)
  {
  }

  /**
   * A comma ends what `parseFloat` reads: the text after it never matters.
   * This is why `parseFloat` of an array, whose string form joins its
   * elements with commas, reads only the first element.
   */
  lemma ParseFloatStopsAtComma(s: string, t: string)
    ensures ParseFloat(s + [','] + t) == ParseFloat(s)
  {
    var w := [','] + t;
    assert s + [','] + t == s + w;
    TrimStartAppend(s, w);
    ScanPrefix(TrimStart(s), w);
    var a, b := Scan(TrimStart(s) + w), Scan(TrimStart(s));
    if b.HasDigits() {
      SameValue(a, b);
    }
  }

  lemma SameWholePart(a: Literal, b: Literal)
    requires AllDigits(a.whole) && a.whole == b.whole && a.negative == b.negative
    ensures WholePart(a) == WholePart(b)
  {
  }

  /** On a non-blank numeric string, `parseInt` is the integer part when there are whole digits. */
  lemma {:induction false} ParseIntAgrees(s: string)
    requires Trim(s) != [] && NumberOf(s).Some?
    ensures ParseInt(s) == WholePart(Scan(Trim(s)))
  {
    TrimmedScan(s);
    var a := Scan(TrimStart(s));
    var b := Scan(Trim(s));
    SameWholePart(a, b);
  }

  /** `x <= 0` on a `parseFloat` reading: false for `NaN`. */
  predicate AtMostZero(x: Option<real>) {
    x.Some? && x.value <= 0.0
  }

  /** `x > y` on two readings: false when either is `NaN`. */
  predicate Exceeds(x: Option<real>, y: Option<real>) {
    x.Some? && y.Some? && x.value > y.value
  }
}
