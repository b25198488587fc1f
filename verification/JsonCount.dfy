/** Strict count reading: jsonCount and countFromFloat (antd-go/errors.go) over
    JSON number literals. */
module JsonCount {
  import opened Text
  import opened Decimal

  /** A number literal of RFC 8259 section 6: [-] int [frac] [exp]. */
  datatype Literal = Literal(negative: bool, int_: string, frac: Option<string>, exp: Option<Exponent>)

  datatype Exponent = Exponent(mark: string, digits: string)

  predicate ValidLiteral(l: Literal) {
    && l.int_ != "" && AllDigits(l.int_) && (|l.int_| > 1 ==> l.int_[0] != '0')
    && (l.frac.Some? ==> l.frac.value != "" && AllDigits(l.frac.value))
    && (l.exp.Some? ==> l.exp.value.mark in {"e", "E", "e+", "E+", "e-", "E-"}
                        && l.exp.value.digits != "" && AllDigits(l.exp.value.digits))
  }

  function LiteralText(l: Literal): string {
    (if l.negative then "-" else "") + l.int_
    + (if l.frac.Some? then "." + l.frac.value else "")
    + (if l.exp.Some? then l.exp.value.mark + l.exp.value.digits else "")
  }

  /** A plain integer literal: no sign, fraction or exponent. */
  predicate Plain(l: Literal) { !l.negative && l.frac.None? && l.exp.None? }

  /** The digits as a decimal fraction, then scaled by the exponent. */
  function Magnitude(l: Literal): (r: real)
    requires ValidLiteral(l)
    ensures r >= 0.0
  {
    var whole := Value(l.int_) as real;
    var part := if l.frac.Some? then Value(l.frac.value) as real / Pow10(|l.frac.value|) as real else 0.0;
    if l.exp.None? then whole + part
    else
      var scale := Pow10(Value(l.exp.value.digits)) as real;
      if '-' in l.exp.value.mark then (whole + part) / scale else ScaleUp(whole + part, scale)
  }

  function ScaleUp(x: real, scale: real): (r: real)
    requires x >= 0.0 && scale >= 0.0
    ensures r >= 0.0
  {
    x * scale
  }

  function ExactValue(l: Literal): real
    requires ValidLiteral(l)
  {
    if l.negative then -Magnitude(l) else Magnitude(l)
  }

  // ----- double precision, up to its rounding -----

  datatype Float = NaN | MinusInf | PlusInf | Finite(x: real)

  const TWO_TO_64: real := 18446744073709551616.0

  predicate FloatLe(a: Float, b: Float) {
    match (a, b)
    case (NaN, _) => false
    case (_, NaN) => false
    case (MinusInf, _) => true
    case (_, PlusInf) => true
    case (Finite(x), Finite(y)) => x <= y
    case (_, _) => false
  }

  /** Any monotone rounding that keeps 0 and 2^64, IEEE 754's among them. */
  ghost predicate Rounding(round: real -> Float) {
    && (forall x, y :: x <= y ==> FloatLe(round(x), round(y)))
    && round(0.0) == Finite(0.0) && round(TWO_TO_64) == Finite(TWO_TO_64)
  }

  /** A finite, integral double in [0, 2^64). */
  predicate IsCount(f: Float) { f.Finite? && 0.0 <= f.x < TWO_TO_64 && f.x == f.x.Floor as real }

  /** countFromFloat: the double's own value when that is a count, else zero. */
  function CountFromFloat(f: Float): (n: nat)
    ensures n < TWO_64
    ensures if IsCount(f) then f == Finite(n as real) else n == 0
  {
    if !f.Finite? || f.x < 0.0 || f.x >= TWO_TO_64 || f.x != f.x.Floor as real then 0 else f.x.Floor
  }

  /** jsonCount on a number: exact for a plain literal in range, else by way of
      the float, whose overflow is an error. */
  function CountOfNumber(l: Literal, round: real -> Float): nat
    requires ValidLiteral(l)
  {
    var u := ParseUint64(LiteralText(l));
    if u.Some? then u.value as nat
    else
      var f := round(ExactValue(l));
      if f.PlusInf? || f.MinusInf? then 0 else CountFromFloat(f)
  }

  lemma TextIsDigitsIffPlain(l: Literal)
    requires ValidLiteral(l)
    ensures AllDigits(LiteralText(l)) <==> Plain(l)
    ensures Plain(l) ==> LiteralText(l) == l.int_
  {
    var text := LiteralText(l);
    var sign := if l.negative then "-" else "";
    var frac := if l.frac.Some? then "." + l.frac.value else "";
    var exp := if l.exp.Some? then l.exp.value.mark + l.exp.value.digits else "";
    assert text == sign + l.int_ + frac + exp;
    if l.negative { assert text[0] == '-' && !IsDigit('-'); }
    if l.frac.Some? { assert text[|sign + l.int_|] == '.' && !IsDigit('.'); }
    if l.exp.Some? { assert text[|sign + l.int_ + frac|] == exp[0] && !IsDigit(exp[0]); }
  }

  /** The count read from any literal, for any such rounding: a plain integer
      is exact up to 2^64 - 1; zero for everything larger, and for every
      negative number; any other literal counts only when its double is an
      integer in range, and then as that integer. */
  lemma CountIsStrict(l: Literal, round: real -> Float)
    requires ValidLiteral(l) && Rounding(round)
    ensures Plain(l) && Value(l.int_) < TWO_64 ==> CountOfNumber(l, round) == Value(l.int_)
    ensures ExactValue(l) >= TWO_TO_64 || ExactValue(l) < 0.0 ==> CountOfNumber(l, round) == 0
    ensures !Plain(l) ==> CountOfNumber(l, round) == CountFromFloat(round(ExactValue(l)))
    ensures round(ExactValue(l)) == Finite(ExactValue(l)) && !Plain(l) ==>
              CountOfNumber(l, round)
              == if 0.0 <= ExactValue(l) < TWO_TO_64 && ExactValue(l) == ExactValue(l).Floor as real
                 then ExactValue(l).Floor else 0
  {
    TextIsDigitsIffPlain(l);
    var v := ExactValue(l);
    if v >= TWO_TO_64 {
      assert FloatLe(round(TWO_TO_64), round(v));
      if Plain(l) { assert v == Value(l.int_) as real; }
    } else if v < 0.0 {
      assert FloatLe(round(v), round(0.0));
    }
  }

  /** What literals stand for, by example: 25e-1, -1.50E+2 and 12. */
  lemma LiteralExamples()
    ensures var l := Literal(false, "25", None, Some(Exponent("e-", "1")));
            ValidLiteral(l) && LiteralText(l) == "25e-1" && ExactValue(l) == 2.5
    ensures var l := Literal(true, "1", Some("50"), Some(Exponent("E+", "2")));
            ValidLiteral(l) && LiteralText(l) == "-1.50E+2" && ExactValue(l) == -150.0
    ensures var l := Literal(false, "12", None, None);
            ValidLiteral(l) && LiteralText(l) == "12" && ExactValue(l) == 12.0
  {
    SmallValues();
    assert Pow10(1) == 10 && Pow10(2) == 100;
  }

  lemma SmallValues()
    ensures Value("1") == 1 && Value("2") == 2 && Value("25") == 25 && Value("50") == 50 && Value("12") == 12
  {
    assert ["1"[0]][..0] == "" && "25"[..1] == "2" && "50"[..1] == "5" && "12"[..1] == "1";
    assert "1"[..0] == "" && "2"[..0] == "" && "5"[..0] == "";
    assert Value("2") == 2 && Value("5") == 5 && Value("1") == 1;
  }

  /** The literal the daemon writes for a count. */
  function PlainLiteral(n: nat): Literal { Literal(false, Print(n), None, None) }

  lemma {:induction false} PrintHasNoLeadingZero(n: nat)
    ensures |Print(n)| > 1 ==> Print(n)[0] != '0'
  {
    if n >= 10 { PrintHasNoLeadingZero(n / 10); FirstOfPrint(n / 10); }
  }

  lemma {:induction false} FirstOfPrint(n: nat)
    ensures n > 0 ==> Print(n)[0] != '0'
  {
    if n >= 10 { FirstOfPrint(n / 10); }
  }

  lemma PlainLiteralCount(n: nat, round: real -> Float)
    requires n < TWO_64
    ensures ValidLiteral(PlainLiteral(n)) && CountOfNumber(PlainLiteral(n), round) == n
  {
    PrintHasNoLeadingZero(n);
    ValueOfPrint(n);
    TextIsDigitsIffPlain(PlainLiteral(n));
  }
}
