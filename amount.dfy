/**
 * The amount checks that add_transaction and update_transaction run on the text the user typed,
 * over integer cents instead of Python floats.
 */
module Amount {
  import opened Options
  import opened Digits

  /** Why an amount was refused, in the order the checks run. */
  datatype AmountError =
    | NonNumeric       // a character other than a digit or '.'
    | InvalidFormat    // float() raises ValueError
    | NotPositive      // the value is zero
    | TooManyDecimals  // the value is not a whole number of cents

  /** The first check: only digits and the decimal point may appear. */
  predicate NumericChars(s: string) { forall i | 0 <= i < |s| :: IsDigit(s[i]) || s[i] == '.' }

  predicate HasDigit(s: string) { exists i | 0 <= i < |s| :: IsDigit(s[i]) }

  predicate TwoPoints(s: string) { exists i, j | 0 <= i < j < |s| :: s[i] == '.' && s[j] == '.' }

  /** A decimal literal split at its point: `whole` before it, `frac` after it (empty when there is none). */
  datatype Literal = Literal(whole: string, frac: string)

  /** Position of the first '.', or |s| when there is none. */
  function PointAt(s: string): (p: nat)
    ensures p <= |s|
    ensures p < |s| ==> s[p] == '.'
    ensures forall i | 0 <= i < p :: s[i] != '.'
  {
    if s == [] || s[0] == '.' then 0 else 1 + PointAt(s[1..])
  }

  /**
   * What Python's float() accepts from a string of digits and points: at least one digit and at
   * most one point ("5", "5.", ".5", "5.25"), split into its two digit runs.
   */
  function SplitLiteral(s: string): (r: Option<Literal>)
    requires NumericChars(s)
    ensures r.Some? <==> HasDigit(s) && !TwoPoints(s)
    ensures r.Some? ==> AllDigits(r.value.whole) && AllDigits(r.value.frac)
    ensures r.Some? ==> s == r.value.whole + "." + r.value.frac || (s == r.value.whole && r.value.frac == "")
  {
    var p := PointAt(s);
    if p == |s| then
      if s == "" then None
      else
        assert IsDigit(s[0]);
        Some(Literal(s, ""))
    else
      var w, f := s[..p], s[p + 1..];
      if '.' in f then
        var j :| 0 <= j < |f| && f[j] == '.';
        assert s[p] == '.' && s[p + 1 + j] == '.';
        None
      else if w + f == "" then
        assert s == ".";
        None
      else
        assert s == w + "." + f;
        assert forall i | 0 <= i < |s| && i != p :: IsDigit(s[i]);
        assert HasDigit(s) by {
          if w != "" { assert IsDigit(s[0]); } else { assert IsDigit(s[p + 1]); }
        }
        Some(Literal(w, f))
  }

  /** The literal's digits with the point removed: its value is Numerator / 10^|frac|. */
  function Numerator(lit: Literal): nat
    requires AllDigits(lit.whole) && AllDigits(lit.frac)
  {
    ValueAppend(lit.whole, lit.frac);
    Value(lit.whole + lit.frac)
  }

  /** The first two fractional digits, padded with zeros: the cents part. */
  function Cents2(f: string): (c: string)
    requires AllDigits(f)
    ensures |c| == 2 && AllDigits(c)
  {
    if |f| >= 2 then f[..2] else if |f| == 1 then f + "0" else "00"
  }

  /**
   * The amount checks of add_transaction, in their order. `str(float)` drops trailing zeros, so
   * "more than 2 decimal places" means a nonzero digit after the second fractional one.
   */
  function ParseAmount(s: string): (r: Result<nat, AmountError>)
    ensures r == Err(NonNumeric) <==> !NumericChars(s)
    ensures r == Err(InvalidFormat) <==> NumericChars(s) && (!HasDigit(s) || TwoPoints(s))
  {
    if !NumericChars(s) then Err(NonNumeric)
    else match SplitLiteral(s)
      case None => Err(InvalidFormat)
      case Some(lit) => Checked(lit)
  }

  /** The checks on the value of a well-formed literal: positive, then whole cents. */
  function Checked(lit: Literal): Result<nat, AmountError>
    requires AllDigits(lit.whole) && AllDigits(lit.frac)
  {
    if Numerator(lit) == 0 then Err(NotPositive)
    else if |lit.frac| > 2 && Value(lit.frac[2..]) != 0 then Err(TooManyDecimals)
    else Ok(Value(lit.whole) * 100 + Value(Cents2(lit.frac)))
  }

  /** Python's `f"{x:.2f}"` display of a cents amount. */
  function FormatCents(c: nat): string
  {
    Numeral(c / 100) + "." + Fixed(c % 100, 2)
  }

  lemma {:induction false} MulAtLeast(m: int, d: int)
    requires m > 0 && d >= 1
    ensures m * d >= m
    decreases d
  {
    if d > 1 {
      MulAtLeast(m, d - 1);
      assert m * d == m * (d - 1) + m;
    }
  }

  /** Euclidean division is determined by quotient and remainder. */
  lemma DivModUnique(x: int, m: int, q: int, r: int)
    requires m > 0 && 0 <= r < m && x == q * m + r
    ensures x / m == q && x % m == r
  {
    var q', r' := x / m, x % m;
    assert x == m * q' + r';
    if q > q' {
      MulAtLeast(m, q - q');
      assert false;
    } else if q < q' {
      MulAtLeast(m, q' - q);
      assert false;
    }
  }

  /** Up to two fractional digits: the value is always whole cents, W * 100 + the padded digits. */
  lemma ExactShort(w: string, f: string)
    requires AllDigits(w) && AllDigits(f) && |f| <= 2
    ensures AllDigits(w + f)
    ensures 100 * Value(w + f) == (Value(w) * 100 + Value(Cents2(f))) * Pow10(|f|)
  {
    ValueAppend(w, f);
    var W, F, V := Value(w), Value(f), Value(w + f);
    if |f| == 0 {
      assert w + f == w;
      assert Value(Cents2(f)) == 0;
    } else if |f| == 1 {
      ValueAppend(f, "0");
      assert Pow10(1) == 10;
      assert V == W * 10 + F;
      assert Value(Cents2(f)) == F * 10;
    } else {
      assert Cents2(f) == f;
      assert Pow10(2) == 100;
      assert V == W * 100 + F;
    }
  }

  lemma LongArith(V: int, W: int, F: int, F2: int, R: int, P: int, PK: int)
    requires V == W * PK + F && F == F2 * P + R && PK == 100 * P && 0 <= R < P
    ensures 100 * V == (W * 100 + F2) * PK + 100 * R
    ensures 0 <= 100 * R < PK
  {
  }

  /** More than two fractional digits: 100 * N == (W * 100 + first two) * 10^k + 100 * rest. */
  lemma ExactLong(w: string, f: string)
    requires AllDigits(w) && AllDigits(f) && |f| > 2
    ensures AllDigits(w + f)
    ensures 100 * Value(w + f) == (Value(w) * 100 + Value(f[..2])) * Pow10(|f|) + 100 * Value(f[2..])
    ensures 0 <= 100 * Value(f[2..]) < Pow10(|f|)
  {
    ValueAppend(w, f);
    ValueSplit(f, 2);
    ValueBound(f[2..]);
    Pow10Split(|f|);
    LongArith(Value(w + f), Value(w), Value(f), Value(f[..2]), Value(f[2..]), Pow10(|f| - 2), Pow10(|f|));
  }

  /**
   * The checks against the exact value of the literal, N / 10^k: zero is refused as not positive,
   * a value that is not a whole number of cents as having too many decimals, and anything else is
   * accepted as exactly 100 * N / 10^k cents.
   */
  lemma ParseAmountExact(s: string)
    requires NumericChars(s) && SplitLiteral(s).Some?
    ensures var lit := SplitLiteral(s).value;
            var n, k := Numerator(lit), |lit.frac|;
            ParseAmount(s) ==
              if n == 0 then Err(NotPositive)
              else if (100 * n) % Pow10(k) == 0 then Ok(100 * n / Pow10(k))
              else Err(TooManyDecimals)
  {
    CheckedExact(SplitLiteral(s).value);
  }

  /** The value checks against the exact value N / 10^k of a literal. */
  lemma CheckedExact(lit: Literal)
    requires AllDigits(lit.whole) && AllDigits(lit.frac)
    ensures var n, k := Numerator(lit), |lit.frac|;
            Checked(lit) ==
              if n == 0 then Err(NotPositive)
              else if (100 * n) % Pow10(k) == 0 then Ok(100 * n / Pow10(k))
              else Err(TooManyDecimals)
  {
    var w, f := lit.whole, lit.frac;
    var n, k := Numerator(lit), |f|;
    if n != 0 {
      var x, p := 100 * n, Pow10(k);
      if k <= 2 {
        ExactShort(w, f);
        var q := Value(w) * 100 + Value(Cents2(f));
        assert x == q * p + 0;
        DivModUnique(x, p, q, 0);
      } else {
        ExactLong(w, f);
        assert Cents2(f) == f[..2];
        var q, r := Value(w) * 100 + Value(f[..2]), 100 * Value(f[2..]);
        assert x == q * p + r;
        DivModUnique(x, p, q, r);
      }
    }
  }

  /** An accepted amount is a strictly positive number of cents. */
  lemma ParseAmountPositive(s: string)
    requires ParseAmount(s).Ok?
    ensures ParseAmount(s).value > 0
  {
    var lit := SplitLiteral(s).value;
    ParseAmountExact(s);
    ExactQuotientPositive(100 * Numerator(lit), Pow10(|lit.frac|));
  }

  lemma ExactQuotientPositive(a: int, p: int)
    requires a > 0 && p >= 1 && a % p == 0
    ensures a / p > 0
  {
    assert a == p * (a / p);
  }

  lemma Recombine(c: int, w: int, f: int, p: int)
    requires c >= 0 && w == c / 100 && f == c % 100 && p == 100
    ensures w * p + f == c
  {
  }

  /** In "w.f" with w all digits, the first point is the one after w. */
  lemma PointAfterDigits(w: string, f: string)
    requires AllDigits(w)
    ensures PointAt(w + "." + f) == |w|
  {
    var s := w + "." + f;
    var p := PointAt(s);
    assert s[|w|] == '.';
    assert forall i | 0 <= i < |w| :: s[i] == w[i];
  }

  /** "w.f" made of two digit runs, not both empty, is split back into w and f. */
  lemma SplitDecimal(w: string, f: string)
    requires AllDigits(w) && AllDigits(f) && w + f != ""
    ensures NumericChars(w + "." + f)
    ensures SplitLiteral(w + "." + f) == Some(Literal(w, f))
  {
    var s := w + "." + f;
    assert NumericChars(s) by {
      forall i | 0 <= i < |s| ensures IsDigit(s[i]) || s[i] == '.' {
        if i < |w| { assert s[i] == w[i]; }
        else if i > |w| { assert s[i] == f[i - |w| - 1]; }
      }
    }
    PointAfterDigits(w, f);
    assert s[..|w|] == w && s[|w| + 1..] == f;
    assert forall j | 0 <= j < |f| :: f[j] != '.';
  }

  /** "w.f" is checked as the literal with digit runs w and f. */
  lemma ParseDecimal(s: string, w: string, f: string)
    requires AllDigits(w) && AllDigits(f) && w + f != "" && s == w + "." + f
    ensures ParseAmount(s) == Checked(Literal(w, f))
  {
    SplitDecimal(w, f);
  }

  /** Every positive amount shown with two decimals is accepted back as the same number of cents. */
  lemma FormatCentsRoundTrip(c: nat)
    requires c > 0
    ensures ParseAmount(FormatCents(c)) == Ok(c)
  {
    var w, f := Numeral(c / 100), Fixed(c % 100, 2);
    ParseDecimal(FormatCents(c), w, f);
    CentsChecked(c, w, f);
  }

  /** The whole part and the two padded decimals of c denote c cents. */
  lemma CentsChecked(c: nat, w: string, f: string)
    requires c > 0 && w == Numeral(c / 100) && f == Fixed(c % 100, 2)
    ensures Checked(Literal(w, f)) == Ok(c)
  {
    assert Pow10(2) == 100;
    FixedValue(c % 100, 2);
    ValueAppend(w, f);
    Recombine(c, Value(w), Value(f), Pow10(|f|));
    assert Cents2(f) == f by { assert f[..2] == f; }
  }

  /** Zero is not positive, however it is written: "0", "000", "0.00", "00.0", ".000", "0.". */
  lemma ZeroRefused(s: string)
    requires NumericChars(s) && HasDigit(s) && !TwoPoints(s)
    requires forall i | 0 <= i < |s| :: s[i] == '0' || s[i] == '.'
    ensures ParseAmount(s) == Err(NotPositive)
  {
    var lit := SplitLiteral(s).value;
    var w, f := lit.whole, lit.frac;
    ValueAppend(w, f);
    forall i | 0 <= i < |w + f| ensures (w + f)[i] == '0' {
      if i < |w| {
        assert (w + f)[i] == w[i] == s[i];
      } else {
        assert s == w + "." + f;
        assert (w + f)[i] == f[i - |w|] == s[i + 1];
      }
    }
    ValueZero(w + f);
  }

  /** A nonzero digit after the second decimal is refused, whatever comes before it ("10.123"). */
  lemma ThreeDecimalsRefused(s: string, w: string, f: string)
    requires AllDigits(w) && AllDigits(f) && s == w + "." + f
    requires exists i | 2 <= i < |f| :: f[i] != '0'
    ensures ParseAmount(s) == Err(TooManyDecimals)
  {
    var i :| 2 <= i < |f| && f[i] != '0';
    ParseDecimal(s, w, f);
    ValueAppend(w, f);
    assert (w + f)[|w| + i] != '0';
    ValueZero(w + f);
    assert f[2..][i - 2] != '0';
    ValueZero(f[2..]);
  }

  /** Any character other than a digit or '.' is refused before anything else ("10.1a", "-5", "1,5"). */
  lemma NonNumericRefused(s: string)
    requires exists i | 0 <= i < |s| :: !IsDigit(s[i]) && s[i] != '.'
    ensures ParseAmount(s) == Err(NonNumeric)
  {
  }

  /**
   * str(float) drops trailing zeros, so zeros after the second decimal change nothing: "1.500" is
   * read as "1.50".
   */
  lemma TrailingZerosIgnored(s: string, w: string, f: string, z: string)
    requires AllDigits(w) && AllDigits(f) && |f| >= 2 && s == w + "." + f
    requires forall i | 0 <= i < |z| :: z[i] == '0'
    ensures ParseAmount(s + z) == ParseAmount(s)
  {
    var f' := f + z;
    assert s + z == w + "." + f';
    assert AllDigits(f');
    ParseDecimal(s + z, w, f');
    ParseDecimal(s, w, f);
    ZerosKeepChecks(w, f, z);
  }

  /** Trailing zeros scale the numerator and the digits past the cents by the same power of ten. */
  lemma ZerosKeepChecks(w: string, f: string, z: string)
    requires AllDigits(w) && AllDigits(f) && |f| >= 2
    requires forall i | 0 <= i < |z| :: z[i] == '0'
    ensures AllDigits(f + z)
    ensures Checked(Literal(w, f + z)) == Checked(Literal(w, f))
  {
    var f' := f + z;
    assert AllDigits(z);
    ValueZero(z);
    assert w + f' == (w + f) + z;
    ValueAppend(w + f, z);
    ScaledZero(Value(w + f), Pow10(|z|));
    assert f'[2..] == f[2..] + z;
    ValueAppend(f[2..], z);
    ScaledZero(Value(f[2..]), Pow10(|z|));
    assert f'[..2] == f[..2];
  }

  lemma ScaledZero(x: int, p: int)
    requires p >= 1
    ensures x * p == 0 <==> x == 0
  {
    if x > 0 { MulAtLeast(x, p); }
    else if x < 0 { MulAtLeast(-x, p); }
  }

  lemma NoDigitRefused()
    ensures ParseAmount(".") == Err(InvalidFormat)
    ensures ParseAmount("") == Err(InvalidFormat)
  {
    assert PointAt(".") == 0;
  }
}
