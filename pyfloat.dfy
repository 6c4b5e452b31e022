/**
 * Python's built-in `float(text)` on a `str`, over the reals.
 *
 * `float` skips ASCII whitespace at both ends and accepts an optional sign, a
 * mantissa of digits with at most one decimal point (at least one digit in
 * all: "1", "1.", ".5", "1.5") and an optional exponent introduced by `e` or
 * `E` with its own optional sign and at least one digit.  Anything else raises
 * ValueError, which is `None` here.  The text is read one character at a time
 * by a scanner whose state records what has been read so far.
 */
module PyFloat {
  import opened Wrappers

  predicate IsDigit(c: char) {
    '0' <= c <= '9'
  }

  /** The whitespace `float` ignores around its argument: space, \t, \n, \v, \f, \r. */
  predicate IsSpace(c: char) {
    c == ' ' || c == '\t' || c == '\n' || c == '\U{000B}' || c == '\U{000C}' || c == '\r'
  }

  predicate IsSign(c: char) {
    c == '+' || c == '-'
  }

  predicate IsExponentMarker(c: char) {
    c == 'e' || c == 'E'
  }

  predicate AllDigits(s: string) {
    forall i :: 0 <= i < |s| ==> IsDigit(s[i])
  }

  predicate AllSpace(s: string) {
    forall i :: 0 <= i < |s| ==> IsSpace(s[i])
  }

  predicate HasDigit(s: string) {
    exists i :: 0 <= i < |s| && IsDigit(s[i])
  }

  function DigitValue(c: char): (d: nat)
    requires IsDigit(c)
    ensures d < 10
  {
    c as int - '0' as int
  }

  function DigitChar(d: nat): (c: char)
    requires d < 10
    ensures IsDigit(c) && DigitValue(c) == d
  {
    ('0' as int + d) as char
  }

  /** `acc` followed by the decimal digits `s`, read most significant first. */
  function DigitsFrom(acc: nat, s: string): nat
    requires AllDigits(s)
    decreases |s|
  {
    if s == [] then acc else DigitsFrom(10 * acc + DigitValue(s[0]), s[1..])
  }

  /** The natural number a string of decimal digits writes. */
  function DigitsValue(s: string): nat
    requires AllDigits(s)
  {
    DigitsFrom(0, s)
  }

  function Pow10(k: nat): (r: nat)
    ensures r >= 1
  {
    if k == 0 then 1 else 10 * Pow10(k - 1)
  }

  /** Where the scanner is in the literal. */
  datatype Phase =
    | Lead        // only whitespace so far
    | Signed      // a sign, no digit yet
    | Whole       // digits before any point
    | PointFirst  // a point with no digit before it, none after it yet
    | Fraction    // a point after at least one digit, and any digits after it
    | ExpStart    // the exponent marker
    | ExpSigned   // the exponent's sign
    | ExpDigits   // exponent digits
    | Trail       // whitespace after a complete literal

  /** The phase with what has been read: the mantissa's digits as one integer,
      how many of them follow the point, and the exponent. */
  datatype Scanner = Scanner(phase: Phase, negative: bool, mantissa: nat, fractionDigits: nat,
                             exponentNegative: bool, exponent: nat)

  const Start := Scanner(Lead, false, 0, 0, false, 0)

  /** The number read so far. */
  function Value(st: Scanner): real {
    var m := st.mantissa as real / Pow10(st.fractionDigits) as real;
    var v := if st.exponentNegative then m / Pow10(st.exponent) as real else m * Pow10(st.exponent) as real;
    if st.negative then -v else v
  }

  /** Phases in which the text read so far is a complete literal. */
  predicate Complete(p: Phase) {
    p == Whole || p == Fraction || p == ExpDigits || p == Trail
  }

  /** Reads one character; `None` when it cannot continue a literal. */
  function Step(st: Scanner, c: char): Option<Scanner> {
    match st.phase
    case Lead =>
      if IsSpace(c) then Some(st)
      else if IsSign(c) then Some(st.(phase := Signed, negative := c == '-'))
      else if IsDigit(c) then Some(st.(phase := Whole, mantissa := 10 * st.mantissa + DigitValue(c)))
      else if c == '.' then Some(st.(phase := PointFirst))
      else None
    case Signed =>
      if IsDigit(c) then Some(st.(phase := Whole, mantissa := 10 * st.mantissa + DigitValue(c)))
      else if c == '.' then Some(st.(phase := PointFirst))
      else None
    case Whole =>
      if IsDigit(c) then Some(st.(mantissa := 10 * st.mantissa + DigitValue(c)))
      else if c == '.' then Some(st.(phase := Fraction))
      else if IsExponentMarker(c) then Some(st.(phase := ExpStart))
      else if IsSpace(c) then Some(st.(phase := Trail))
      else None
    case PointFirst =>
      if IsDigit(c) then
        Some(st.(phase := Fraction, mantissa := 10 * st.mantissa + DigitValue(c), fractionDigits := st.fractionDigits + 1))
      else None
    case Fraction =>
      if IsDigit(c) then
        Some(st.(mantissa := 10 * st.mantissa + DigitValue(c), fractionDigits := st.fractionDigits + 1))
      else if IsExponentMarker(c) then Some(st.(phase := ExpStart))
      else if IsSpace(c) then Some(st.(phase := Trail))
      else None
    case ExpStart =>
      if IsSign(c) then Some(st.(phase := ExpSigned, exponentNegative := c == '-'))
      else if IsDigit(c) then Some(st.(phase := ExpDigits, exponent := DigitValue(c)))
      else None
    case ExpSigned =>
      if IsDigit(c) then Some(st.(phase := ExpDigits, exponent := DigitValue(c)))
      else None
    case ExpDigits =>
      if IsDigit(c) then Some(st.(exponent := 10 * st.exponent + DigitValue(c)))
      else if IsSpace(c) then Some(st.(phase := Trail))
      else None
    case Trail =>
      if IsSpace(c) then Some(st) else None
  }

  /** Reads the rest of the text from a scanner state. */
  function Scan(s: string, st: Scanner): Option<real>
    decreases |s|
  {
    if s == [] then
      if Complete(st.phase) then Some(Value(st)) else None
    else
      match Step(st, s[0])
      case None => None
      case Some(next) => Scan(s[1..], next)
  }

  /** `float(s)`: `Some(value)`, or `None` where Python raises ValueError.
      Only text holding a digit converts. */
  function ParseFloat(s: string): (r: Option<real>)
    ensures r.Some? ==> HasDigit(s)
  {
    ScanNeedsDigit(s, Start);
    Scan(s, Start)
  }

  /** Decimal rendering of a natural number, the inverse of DigitsValue. */
  function ShowNat(n: nat): (s: string)
    ensures |s| > 0 && AllDigits(s)
  {
    if n < 10 then [DigitChar(n)] else ShowNat(n / 10) + [DigitChar(n % 10)]
  }

  /** Appending a digit multiplies by ten and adds it. */
  lemma {:induction false} DigitsFromSnoc(acc: nat, s: string, c: char)
    requires AllDigits(s) && IsDigit(c)
    ensures AllDigits(s + [c])
    ensures DigitsFrom(acc, s + [c]) == 10 * DigitsFrom(acc, s) + DigitValue(c)
    decreases |s|
  {
    if s != [] {
      assert (s + [c])[0] == s[0] && (s + [c])[1..] == s[1..] + [c];
      DigitsFromSnoc(10 * acc + DigitValue(s[0]), s[1..], c);
    } else {
      assert [c][1..] == [];
    }
  }

  lemma {:induction false} DigitsValueShowNat(n: nat)
    ensures DigitsValue(ShowNat(n)) == n
  {
    if n < 10 {
      var s := [DigitChar(n)];
      assert s[1..] == [];
      assert DigitsFrom(0, s) == DigitsFrom(DigitValue(s[0]), []);
    } else {
      DigitsValueShowNat(n / 10);
      DigitsFromSnoc(0, ShowNat(n / 10), DigitChar(n % 10));
    }
  }

  /** Further digits in the whole part extend the mantissa. */
  lemma {:induction false} ScanWhole(s: string, st: Scanner)
    requires st.phase == Whole && AllDigits(s)
    ensures Scan(s, st) == Some(Value(st.(mantissa := DigitsFrom(st.mantissa, s))))
  {
    if s != [] {
      ScanWhole(s[1..], st.(mantissa := 10 * st.mantissa + DigitValue(s[0])));
    }
  }

  /** A non-empty run of digits is read as the number it writes. */
  lemma ParseDigits(s: string)
    requires s != [] && AllDigits(s)
    ensures ParseFloat(s) == Some(DigitsValue(s) as real)
  {
    var st := Start.(phase := Whole, mantissa := DigitValue(s[0]));
    ScanWhole(s[1..], st);
    assert Value(st.(mantissa := DigitsValue(s))) == DigitsValue(s) as real;
  }

  /** A minus sign before a run of digits negates it. */
  lemma ParseNegativeDigits(s: string)
    requires s != [] && AllDigits(s)
    ensures ParseFloat("-" + s) == Some(-(DigitsValue(s) as real))
  {
    var t := "-" + s;
    assert t[0] == '-' && t[1..] == s;
    var signed := Start.(phase := Signed, negative := true);
    var st := signed.(phase := Whole, mantissa := DigitValue(s[0]));
    assert Scan(t, Start) == Scan(s, signed);
    assert Scan(s, signed) == Scan(s[1..], st);
    ScanWhole(s[1..], st);
    assert Value(st.(mantissa := DigitsValue(s))) == -(DigitsValue(s) as real);
  }

  /** float(str(n)) == n for every natural number n. */
  lemma ParseShowNat(n: nat)
    ensures ParseFloat(ShowNat(n)) == Some(n as real)
  {
    DigitsValueShowNat(n);
    ParseDigits(ShowNat(n));
  }

  /** float("-" + str(n)) == -n. */
  lemma ParseNegativeShowNat(n: nat)
    ensures ParseFloat("-" + ShowNat(n)) == Some(-(n as real))
  {
    DigitsValueShowNat(n);
    ParseNegativeDigits(ShowNat(n));
  }

  /** Until a digit has been read, the scanner accepts only text that holds one:
      in particular the sentinel "-" and words such as "abc" make `float` raise. */
  lemma {:induction false} ScanNeedsDigit(s: string, st: Scanner)
    requires st.phase == Lead || st.phase == Signed || st.phase == PointFirst
    ensures Scan(s, st).Some? ==> HasDigit(s)
  {
    if s != [] && Scan(s, st).Some? {
      if IsDigit(s[0]) {
        assert IsDigit(s[0]);
      } else {
        var next := Step(st, s[0]).value;
        ScanNeedsDigit(s[1..], next);
        var i :| 0 <= i < |s[1..]| && IsDigit(s[1..][i]);
        assert IsDigit(s[i + 1]);
      }
    }
  }

  /** Trailing whitespace changes nothing, from any state. */
  lemma {:induction false} ScanTrailingSpace(s: string, st: Scanner, c: char)
    requires IsSpace(c)
    ensures Scan(s + [c], st) == Scan(s, st)
    decreases |s|
  {
    if s == [] {
      assert [c][1..] == [];
      if st.phase == Whole || st.phase == Fraction || st.phase == ExpDigits {
        var next := st.(phase := Trail);
        assert Step(st, c) == Some(next);
        assert Scan([c], st) == Scan([], next);
        assert Value(next) == Value(st);
      }
    } else {
      assert (s + [c])[0] == s[0] && (s + [c])[1..] == s[1..] + [c];
      if Step(st, s[0]).Some? {
        ScanTrailingSpace(s[1..], Step(st, s[0]).value, c);
      }
    }
  }

  /** Any run of trailing whitespace changes nothing, from any state. */
  lemma {:induction false} ScanTrailingSpaces(s: string, post: string, st: Scanner)
    requires AllSpace(post)
    ensures Scan(s + post, st) == Scan(s, st)
    decreases |post|
  {
    if post == [] {
      assert s + post == s;
    } else {
      var init := post[..|post| - 1];
      var last := post[|post| - 1];
      assert s + post == (s + init) + [last];
      ScanTrailingSpace(s + init, st, last);
      ScanTrailingSpaces(s, init, st);
    }
  }

  /** Leading whitespace leaves the scanner where it starts. */
  lemma {:induction false} ScanLeadingSpaces(pre: string, s: string)
    requires AllSpace(pre)
    ensures Scan(pre + s, Start) == Scan(s, Start)
    decreases |pre|
  {
    if pre == [] {
      assert pre + s == s;
    } else {
      assert (pre + s)[0] == pre[0] && (pre + s)[1..] == pre[1..] + s;
      assert Step(Start, pre[0]) == Some(Start);
      assert AllSpace(pre[1..]) by {
        assert forall i :: 0 <= i < |pre[1..]| ==> pre[1..][i] == pre[i + 1];
      }
      ScanLeadingSpaces(pre[1..], s);
    }
  }

  /** Whitespace around a literal changes nothing: float(pre + x + post) == float(x). */
  lemma ParseIgnoresSurroundingSpace(pre: string, s: string, post: string)
    requires AllSpace(pre) && AllSpace(post)
    ensures ParseFloat(pre + s + post) == ParseFloat(s)
  {
    assert pre + s + post == pre + (s + post);
    ScanLeadingSpaces(pre, s + post);
    ScanTrailingSpaces(s, post, Start);
  }

  /** float("100") == 100.0 */
  lemma ParseHundred()
    ensures ParseFloat("100") == Some(100.0)
  {
  }

  /** float("2.5") == 2.5 */
  lemma ParseTwoAndAHalf()
    ensures ParseFloat("2.5") == Some(2.5)
  {
  }

  /** float("-1e2") == -100.0 */
  lemma ParseNegativeExponent()
    ensures ParseFloat("-1e2") == Some(-100.0)
  {
    var st := Scanner(ExpDigits, true, 1, 0, false, 2);
    assert Pow10(2) == 100 && Pow10(0) == 1;
    assert ParseFloat("-1e2") == Scan([], st);
  }

  /** A few texts Python refuses. */
  lemma ParseRefusals()
    ensures ParseFloat("-") == None
    ensures ParseFloat(".") == None
    ensures ParseFloat("1e") == None
    ensures ParseFloat("abc") == None
    ensures ParseFloat("") == None
  {
  }
}
