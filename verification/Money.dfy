/**
 Money as text: printing kopecks as roubles with two decimals, and reading such
 text back through decimal arithmetic with a bounded precision and range, which
 rounds half to even, cuts off what lies below its finest place, and raises on
 what lies above its range.
 */
module Money {
  import opened Wrappers

  /** Significant digits kept, the finest decimal place, and the most digits before the point. */
  datatype Context = Context(precision: nat, places: nat, top: nat)

  const DEFAULT := Context(28, 1_000_026, 1_000_000)

  /** The overflow of the arithmetic is not caught: it leaves the function as an error of its own. */
  datatype AmountError = NotNumeric | NotWholeKopecks | Overflow

  // ---- Digits ----

  function Pow10(e: nat): (r: nat)
    ensures r >= 1
  {
    if e == 0 then 1 else 10 * Pow10(e - 1)
  }

  function DigitCount(n: nat): (r: nat)
    ensures r >= 1
  {
    if n < 10 then 1 else 1 + DigitCount(n / 10)
  }

  predicate IsDigit(c: char) {
    '0' <= c <= '9'
  }

  predicate AllDigits(s: string) {
    forall k :: 0 <= k < |s| ==> IsDigit(s[k])
  }

  function Value(s: string): nat
    requires AllDigits(s)
  {
    if s == "" then 0 else 10 * Value(s[..|s| - 1]) + (s[|s| - 1] as int - '0' as int)
  }

  function DigitChar(d: nat): char
    requires d < 10
  {
    (d + '0' as int) as char
  }

  function Decimal(n: nat): (r: string)
    ensures r != "" && AllDigits(r)
  {
    if n < 10 then [DigitChar(n)] else Decimal(n / 10) + [DigitChar(n % 10)]
  }

  lemma {:induction false} DecimalValue(n: nat)
    ensures Value(Decimal(n)) == n
  {
    if n >= 10 {
      DecimalValue(n / 10);
      var r := Decimal(n);
      assert r[..|r| - 1] == Decimal(n / 10);
    }
  }

  lemma ValueSnoc(s: string, d: nat)
    requires AllDigits(s) && d < 10
    ensures AllDigits(s + [DigitChar(d)]) && Value(s + [DigitChar(d)]) == 10 * Value(s) + d
  {
    var r := s + [DigitChar(d)];
    assert r[..|r| - 1] == s;
  }

  lemma {:induction false} Pow10Adds(a: nat, b: nat)
    ensures Pow10(a + b) == Pow10(a) * Pow10(b)
  {
    if a > 0 {
      Pow10Adds(a - 1, b);
    }
  }

  lemma DigitsOfHundredfold(n: nat)
    requires n > 0
    ensures DigitCount(100 * n) == DigitCount(n) + 2
  {
    assert (100 * n) / 10 == 10 * n && (10 * n) / 10 == n;
  }

  // ---- Decimal numbers ----

  /** The number (-1)^negative * coefficient / 10^scale. */
  datatype Numeral = Numeral(negative: bool, coefficient: nat, scale: nat)

  function DotIndex(s: string): (r: nat)
    ensures r <= |s| && (r < |s| ==> s[r] == '.') && forall k :: 0 <= k < r ==> s[k] != '.'
  {
    if s == "" || s[0] == '.' then 0 else 1 + DotIndex(s[1..])
  }

  function ReadUnsigned(body: string, negative: bool): Option<Numeral> {
    var dot := DotIndex(body);
    var digits := body[..dot] + if dot < |body| then body[dot + 1..] else "";
    if digits != "" && AllDigits(digits)
    then Some(Numeral(negative, Value(digits), |digits| - dot)) else None
  }

  /** Plain decimal text: an optional sign, digits, and at most one point. */
  function ReadDecimal(s: string): Option<Numeral> {
    if s != "" && (s[0] == '+' || s[0] == '-') then ReadUnsigned(s[1..], s[0] == '-') else ReadUnsigned(s, false)
  }

  /** Text without exponents, spaces, underscores or names such as NaN. */
  predicate Plain(s: string) {
    forall k :: 0 <= k < |s| ==> IsDigit(s[k]) || s[k] == '.' || s[k] == '+' || s[k] == '-'
  }

  function HalfEven(n: nat, unit: nat): nat
    requires unit >= 1
  {
    var q, r := n / unit, n % unit;
    if 2 * r < unit || (2 * r == unit && q % 2 == 0) then q else q + 1
  }

  /** The nearest multiple, and between two of them the even one. */
  lemma HalfEvenIsNearest(n: nat, unit: nat)
    requires unit >= 1
    ensures var q := HalfEven(n, unit);
            && 2 * (q * unit - n) <= unit && 2 * (n - q * unit) <= unit
            && (2 * (q * unit - n) == unit || 2 * (n - q * unit) == unit ==> q % 2 == 0)
  {
    var q, r := n / unit, n % unit;
    assert n == q * unit + r && 0 <= r < unit;
    assert (q + 1) * unit == q * unit + unit;
  }

  function Max(a: int, b: int): int {
    if a > b then a else b
  }

  /** How many digits the product coefficient / 10^scale loses to the precision or below the finest place. */
  function Lost(ctx: Context, coefficient: nat, scale: nat): nat {
    Max(0, Max(DigitCount(coefficient) - ctx.precision, scale - ctx.places))
  }

  /** q * 10^exponent, if that is a whole number. */
  function Whole(q: nat, exponent: int): Option<nat> {
    if exponent >= 0 then Some(q * Pow10(exponent))
    else if q % Pow10(-exponent) == 0 then Some(q / Pow10(-exponent)) else None
  }

  /** Reads q * 10^exponent as kopecks. */
  function ReadKopecks(ctx: Context, negative: bool, q: nat, exponent: int): Result<nat, AmountError> {
    if q > 0 && DigitCount(q) + exponent > ctx.top then Failure(Overflow)
    else
      match Whole(q, exponent)
      case None => Failure(NotWholeKopecks)
      case Some(kopecks) => if negative && kopecks > 0 then Failure(NotWholeKopecks) else Success(kopecks)
  }

  function ParseIn(ctx: Context, s: string): Result<nat, AmountError>
    requires Plain(s)
  {
    match ReadDecimal(s)
    case None => Failure(NotNumeric)
    case Some(x) =>
      var lost := Lost(ctx, 100 * x.coefficient, x.scale);
      ReadKopecks(ctx, x.negative, HalfEven(100 * x.coefficient, Pow10(lost)), lost - x.scale)
  }

  function ParseAmount(s: string): Result<nat, AmountError>
    requires Plain(s)
  {
    ParseIn(DEFAULT, s)
  }

  /** Roubles, a point, and two digits of kopecks. */
  function PrintAmount(kopecks: nat): (r: string)
    ensures Plain(r)
  {
    Decimal(kopecks / 100) + "." + [DigitChar(kopecks % 100 / 10), DigitChar(kopecks % 10)]
  }

  // ---- Which text is a number, and which ----

  lemma {:induction false} DotFound(whole: string, rest: string)
    requires AllDigits(whole) && (rest != "" ==> rest[0] == '.')
    ensures DotIndex(whole + rest) == |whole|
  {
    if whole == "" {
      assert whole + rest == rest;
    } else {
      assert (whole + rest)[1..] == whole[1..] + rest && (whole + rest)[0] == whole[0];
      DotFound(whole[1..], rest);
    }
  }

  /** Digits, and optionally a point with digits after it; at least one digit in all. */
  predicate IsBody(body: string, whole: string, pointed: bool, frac: string) {
    && AllDigits(whole) && AllDigits(frac) && whole + frac != "" && (!pointed ==> frac == "")
    && body == whole + if pointed then "." + frac else ""
  }

  lemma DigitsJoin(a: string, b: string)
    ensures AllDigits(a + b) <==> AllDigits(a) && AllDigits(b)
  {
    assert forall k :: 0 <= k < |a| ==> (a + b)[k] == a[k];
    assert forall k :: 0 <= k < |b| ==> (a + b)[|a| + k] == b[k];
  }

  lemma BodyReads(body: string, whole: string, pointed: bool, frac: string, negative: bool)
    requires IsBody(body, whole, pointed, frac)
    ensures AllDigits(whole + frac) && ReadUnsigned(body, negative) == Some(Numeral(negative, Value(whole + frac), |frac|))
    ensures body != "" && body[0] != '+' && body[0] != '-'
  {
    DigitsJoin(whole, frac);
    if pointed {
      DotFound(whole, "." + frac);
      assert body[..|whole|] == whole && body[|whole| + 1..] == frac;
    } else {
      DotFound(whole, "");
      assert whole + "" == whole && whole + frac == whole && body[..|whole|] == whole;
    }
  }

  lemma BodyOf(body: string, negative: bool) returns (whole: string, pointed: bool, frac: string)
    requires ReadUnsigned(body, negative).Some?
    ensures IsBody(body, whole, pointed, frac)
  {
    var dot := DotIndex(body);
    whole, pointed := body[..dot], dot < |body|;
    frac := if pointed then body[dot + 1..] else "";
    DigitsJoin(whole, frac);
  }

  /** The digits and the number of decimals are read off the text, and the sign if there is one. */
  lemma TextReads(body: string, whole: string, pointed: bool, frac: string)
    requires IsBody(body, whole, pointed, frac)
    ensures AllDigits(whole + frac)
    ensures ReadDecimal(body) == ReadDecimal("+" + body) == Some(Numeral(false, Value(whole + frac), |frac|))
    ensures ReadDecimal("-" + body) == Some(Numeral(true, Value(whole + frac), |frac|))
  {
    BodyReads(body, whole, pointed, frac, false);
    BodyReads(body, whole, pointed, frac, true);
    assert ("+" + body)[1..] == body;
    assert ("-" + body)[1..] == body;
  }

  /** Nothing else is a number. */
  lemma NumbersAreText(s: string) returns (body: string, whole: string, pointed: bool, frac: string)
    requires ReadDecimal(s).Some?
    ensures IsBody(body, whole, pointed, frac) && (s == body || s == "+" + body || s == "-" + body)
  {
    if s != "" && (s[0] == '+' || s[0] == '-') {
      body := s[1..];
      whole, pointed, frac := BodyOf(body, s[0] == '-');
      assert s == [s[0]] + body;
    } else {
      body := s;
      whole, pointed, frac := BodyOf(body, false);
    }
  }

  // ---- Reading is exact when no digit is lost ----

  ghost predicate IsExactly(x: Numeral, kopecks: nat) {
    100 * x.coefficient == kopecks * Pow10(x.scale) && (x.negative ==> kopecks == 0)
  }

  /** The digits lost are all zeros. */
  predicate LosesNothing(ctx: Context, x: Numeral) {
    (100 * x.coefficient) % Pow10(Lost(ctx, 100 * x.coefficient, x.scale)) == 0
  }

  predicate InRange(ctx: Context, x: Numeral) {
    x.coefficient > 0 ==> DigitCount(100 * x.coefficient) <= x.scale + ctx.top
  }

  lemma {:induction false} DigitsShift(n: nat, k: nat)
    requires n > 0
    ensures DigitCount(n * Pow10(k)) == DigitCount(n) + k
  {
    if k > 0 {
      DigitsShift(n, k - 1);
      TenTimes(n, Pow10(k - 1));
      assert n * Pow10(k) == 10 * (n * Pow10(k - 1));
    }
  }

  lemma TenTimes(n: nat, p: nat)
    requires n > 0 && p >= 1
    ensures n * (10 * p) == 10 * (n * p) && n * p > 0 && 10 * (n * p) / 10 == n * p
  {
  }

  lemma WholeMeansEqual(q: nat, lost: nat, scale: nat, kopecks: nat)
    ensures Whole(q, lost - scale) == Some(kopecks) <==> q * Pow10(lost) == kopecks * Pow10(scale)
  {
    if lost >= scale {
      WholeUp(q, lost, scale, kopecks);
    } else {
      WholeDown(q, lost, scale, kopecks);
    }
  }

  lemma WholeUp(q: nat, lost: nat, scale: nat, kopecks: nat)
    requires lost >= scale
    ensures q * Pow10(lost - scale) == kopecks <==> q * Pow10(lost) == kopecks * Pow10(scale)
  {
    Pow10Adds(lost - scale, scale);
    ScaledUp(q, Pow10(lost - scale), Pow10(scale), Pow10(lost), kopecks);
  }

  lemma WholeDown(q: nat, lost: nat, scale: nat, kopecks: nat)
    requires lost < scale
    ensures q % Pow10(scale - lost) == 0 && q / Pow10(scale - lost) == kopecks
       <==> q * Pow10(lost) == kopecks * Pow10(scale)
  {
    Pow10Adds(scale - lost, lost);
    ScaledDown(q, Pow10(scale - lost), Pow10(lost), Pow10(scale), kopecks);
  }

  lemma ScaledUp(q: nat, p: nat, r: nat, both: nat, kopecks: nat)
    requires r >= 1 && both == p * r
    ensures q * both == kopecks * r <==> q * p == kopecks
  {
    FactorOut(q, p, r, kopecks);
  }

  lemma ScaledDown(q: nat, p: nat, r: nat, both: nat, kopecks: nat)
    requires p >= 1 && r >= 1 && both == p * r
    ensures q * r == kopecks * both <==> q % p == 0 && q / p == kopecks
  {
    FactorOut(kopecks, p, r, q);
    Divides(q, kopecks, p);
  }

  lemma FactorOut(a: nat, p: nat, r: nat, b: nat)
    requires r >= 1
    ensures a * (p * r) == b * r <==> a * p == b
  {
    MulAssoc(a, p, r);
    Cancels(a * p, b, r);
  }

  lemma MulAssoc(a: int, b: int, c: int)
    ensures (a * b) * c == a * (b * c)
  {
  }

  lemma Cancels(a: int, b: int, r: nat)
    requires r >= 1
    ensures a * r == b * r <==> a == b
  {
    if a < b {
      assert (b - a) * r >= 1;
    } else if b < a {
      assert (a - b) * r >= 1;
    }
  }

  lemma Divides(q: nat, k: nat, p: nat)
    requires p >= 1
    ensures q % p == 0 && q / p == k <==> q == k * p
  {
    if q == k * p {
      Cancels(q / p, k, p);
      assert q == (q / p) * p + q % p;
      Remainder(q / p, k, p, q % p);
    } else {
      assert q == (q / p) * p + q % p;
    }
  }

  lemma Remainder(a: int, b: int, p: nat, r: nat)
    requires r < p && a * p + r == b * p
    ensures a == b && r == 0
  {
    assert (b - a) * p == r;
    AtLeastOne(b - a, p);
  }

  lemma AtLeastOne(d: int, p: nat)
    ensures d >= 1 ==> d * p >= p
    ensures d <= -1 ==> d * p + p <= 0
  {
    if d >= 1 {
      assert (d - 1) * p >= 0;
    } else if d <= -1 {
      assert (-1 - d) * p >= 0;
    }
  }

  lemma RoundedIffDivides(n: nat, unit: nat)
    requires unit >= 1
    ensures HalfEven(n, unit) * unit == n <==> n % unit == 0
  {
    var q, r := n / unit, n % unit;
    assert n == q * unit + r;
    if HalfEven(n, unit) == q + 1 {
      assert (q + 1) * unit == q * unit + unit;
    }
  }

  lemma HundredfoldDivides(c: nat, p: nat)
    requires p >= 1
    ensures (100 * c) % (100 * p) == 0 <==> c % p == 0
  {
    var q := c / p;
    assert c == q * p + c % p;
    assert 100 * c == q * (100 * p) + 100 * (c % p);
    assert 100 * c == ((100 * c) / (100 * p)) * (100 * p) + (100 * c) % (100 * p);
    if (100 * c) % (100 * p) == 0 {
      Remainder(q, (100 * c) / (100 * p), 100 * p, 100 * (c % p));
    } else if c % p == 0 {
      Remainder((100 * c) / (100 * p), q, 100 * p, (100 * c) % (100 * p));
    }
  }

  /** Rounding leaves the product alone exactly when it loses nothing, and then the range is that of the text. */
  lemma RoundedRange(ctx: Context, x: Numeral, q: nat, lost: nat)
    requires q * Pow10(lost) == 100 * x.coefficient
    ensures q > 0 && DigitCount(q) + lost - x.scale > ctx.top <==> !InRange(ctx, x)
  {
    if q > 0 {
      DigitsShift(q, lost);
      TenTimes(q, Pow10(lost));
    }
  }

  lemma ReadsWhole(ctx: Context, negative: bool, q: nat, lost: nat, scale: nat, kopecks: nat)
    ensures ReadKopecks(ctx, negative, q, lost - scale) == Success(kopecks) <==>
              && !(q > 0 && DigitCount(q) + lost - scale > ctx.top)
              && q * Pow10(lost) == kopecks * Pow10(scale) && (negative ==> kopecks == 0)
  {
    WholeMeansEqual(q, lost, scale, kopecks);
  }

  /** What the reading amounts to, with the lost digits spelled out. */
  lemma ParsesAs(ctx: Context, s: string, x: Numeral, lost: nat, q: nat, kopecks: nat)
    requires Plain(s) && ReadDecimal(s) == Some(x)
    requires lost == Lost(ctx, 100 * x.coefficient, x.scale) && q == HalfEven(100 * x.coefficient, Pow10(lost))
    ensures ParseIn(ctx, s) == Success(kopecks) <==>
              && !(q > 0 && DigitCount(q) + lost - x.scale > ctx.top)
              && q * Pow10(lost) == kopecks * Pow10(x.scale) && (x.negative ==> kopecks == 0)
  {
    ReadsWhole(ctx, x.negative, q, lost, x.scale, kopecks);
  }

  /** A text that loses nothing and stays in range is accepted exactly when it is a non-negative whole number of kopecks, and read as that number. */
  lemma FittingReadsIff(ctx: Context, s: string, x: Numeral, kopecks: nat)
    requires Plain(s) && ReadDecimal(s) == Some(x) && LosesNothing(ctx, x) && InRange(ctx, x)
    ensures ParseIn(ctx, s) == Success(kopecks) <==> IsExactly(x, kopecks)
  {
    var lost := Lost(ctx, 100 * x.coefficient, x.scale);
    var q := HalfEven(100 * x.coefficient, Pow10(lost));
    RoundedIffDivides(100 * x.coefficient, Pow10(lost));
    RoundedRange(ctx, x, q, lost);
    ParsesAs(ctx, s, x, lost, q, kopecks);
  }

  /** A whole number of kopecks is read as that number exactly when it loses nothing and stays in range. */
  lemma ExactReadsIff(ctx: Context, s: string, x: Numeral, kopecks: nat)
    requires Plain(s) && ReadDecimal(s) == Some(x) && IsExactly(x, kopecks)
    ensures ParseIn(ctx, s) == Success(kopecks) <==> LosesNothing(ctx, x) && InRange(ctx, x)
  {
    var lost := Lost(ctx, 100 * x.coefficient, x.scale);
    var q := HalfEven(100 * x.coefficient, Pow10(lost));
    RoundedIffDivides(100 * x.coefficient, Pow10(lost));
    if q * Pow10(lost) == 100 * x.coefficient {
      RoundedRange(ctx, x, q, lost);
    }
    ParsesAs(ctx, s, x, lost, q, kopecks);
  }

  // ---- Round trip ----

  lemma {:induction false} NoDot(digits: string, rest: string)
    requires AllDigits(digits)
    ensures DotIndex(digits + "." + rest) == |digits|
  {
    var s := digits + "." + rest;
    if digits != "" {
      assert s[1..] == digits[1..] + "." + rest;
      NoDot(digits[1..], rest);
    }
  }

  lemma PointedReads(whole: string, decimals: string)
    requires whole != "" && AllDigits(whole) && AllDigits(decimals)
    ensures ReadDecimal(whole + "." + decimals) == Some(Numeral(false, Value(whole + decimals), |decimals|))
  {
    var s := whole + "." + decimals;
    NoDot(whole, decimals);
    assert s[..|whole|] == whole && s[|whole| + 1..] == decimals;
    assert s[0] == whole[0];
  }

  lemma PointedIsPlain(whole: string, decimals: string)
    requires AllDigits(whole) && AllDigits(decimals)
    ensures Plain(whole + "." + decimals)
  {
  }

  lemma TwoMoreDigits(s: string, tens: nat, ones: nat)
    requires AllDigits(s) && tens < 10 && ones < 10
    ensures AllDigits(s + [DigitChar(tens), DigitChar(ones)])
    ensures Value(s + [DigitChar(tens), DigitChar(ones)]) == 10 * (10 * Value(s) + tens) + ones
  {
    assert s + [DigitChar(tens), DigitChar(ones)] == s + [DigitChar(tens)] + [DigitChar(ones)];
    ValueSnoc(s, tens);
    ValueSnoc(s + [DigitChar(tens)], ones);
  }

  lemma TwoDecimalsRead(roubles: string, tens: nat, ones: nat)
    requires roubles != "" && AllDigits(roubles) && tens < 10 && ones < 10
    ensures ReadDecimal(roubles + "." + [DigitChar(tens), DigitChar(ones)])
         == Some(Numeral(false, 10 * (10 * Value(roubles) + tens) + ones, 2))
  {
    TwoMoreDigits(roubles, tens, ones);
    PointedReads(roubles, [DigitChar(tens), DigitChar(ones)]);
  }

  lemma PrintedReads(n: nat)
    ensures ReadDecimal(PrintAmount(n)) == Some(Numeral(false, n, 2))
  {
    TwoDecimalsRead(Decimal(n / 100), n % 100 / 10, n % 10);
    DecimalValue(n / 100);
    DigitsOf(n);
  }

  lemma DigitsOf(n: nat)
    ensures 10 * (10 * (n / 100) + n % 100 / 10) + n % 10 == n
  {
    assert n % 100 == n - 100 * (n / 100);
    assert n % 10 == (n % 100) % 10;
  }

  // ---- Losing nothing, in digits of the amount ----

  /** Whether n keeps at most `precision` significant digits. */
  predicate FitsPrecision(ctx: Context, n: nat) {
    n % Pow10(Max(0, DigitCount(n) - ctx.precision)) == 0
  }

  lemma HundredfoldUnit(lost: nat)
    ensures Pow10(lost + 2) == 100 * Pow10(lost)
  {
    assert Pow10(lost + 2) == 10 * Pow10(lost + 1);
  }

  lemma SmallUnits(c: nat, lost: nat)
    requires lost <= 2
    ensures (100 * c) % Pow10(lost) == 0
  {
    HundredfoldUnit(0);
    TensDivide(c);
  }

  lemma TensDivide(c: nat)
    ensures (100 * c) % 1 == 0 && (100 * c) % 10 == 0 && (100 * c) % 100 == 0
  {
    assert 100 * c == 10 * (10 * c);
  }

  /** Two more digits than the coefficient are zeros, so up to two may be lost. */
  lemma LosesTwo(ctx: Context, x: Numeral)
    requires DigitCount(x.coefficient) <= ctx.precision && x.scale <= ctx.places + 2
    ensures LosesNothing(ctx, x)
  {
    if x.coefficient > 0 {
      DigitsOfHundredfold(x.coefficient);
      SmallUnits(x.coefficient, Lost(ctx, 100 * x.coefficient, x.scale));
    } else {
      ZeroDivides(Pow10(Lost(ctx, 0, x.scale)));
    }
  }

  lemma ZeroDivides(p: nat)
    requires p >= 1
    ensures 0 % p == 0
  {
  }

  lemma LongLoss(ctx: Context, c: nat)
    requires c > 0 && DigitCount(c) > ctx.precision
    ensures (100 * c) % Pow10(DigitCount(c) + 2 - ctx.precision) == 0 <==> FitsPrecision(ctx, c)
  {
    HundredfoldUnit(DigitCount(c) - ctx.precision);
    HundredfoldDivides(c, Pow10(DigitCount(c) - ctx.precision));
  }

  lemma PrecisionLoss(ctx: Context, x: Numeral)
    requires x.scale <= ctx.places
    ensures LosesNothing(ctx, x) <==> FitsPrecision(ctx, x.coefficient)
  {
    var c := x.coefficient;
    if DigitCount(c) <= ctx.precision {
      LosesTwo(ctx, x);
    } else if c > 0 {
      DigitsOfHundredfold(c);
      LongLoss(ctx, c);
    } else {
      ZeroDivides(Pow10(Lost(ctx, 0, x.scale)));
      ZeroDivides(Pow10(Max(0, 1 - ctx.precision)));
    }
  }

  /** In any context: printing then reading gives the amount back exactly when its digits fit the precision and the range. */
  lemma RoundTripIn(ctx: Context, n: nat)
    requires ctx.places >= 2 && ctx.top >= 1
    ensures ParseIn(ctx, PrintAmount(n)) == Success(n) <==> FitsPrecision(ctx, n) && DigitCount(n) <= ctx.top
  {
    var x := Numeral(false, n, 2);
    PrintedReads(n);
    HundredfoldUnit(0);
    ExactReadsIff(ctx, PrintAmount(n), x, n);
    PrecisionLoss(ctx, x);
    if n > 0 {
      DigitsOfHundredfold(n);
    }
  }

  /** Printing then reading gives the amount back exactly when it keeps at most 28 significant digits and has at most a million digits. */
  lemma RoundTripIff(n: nat)
    ensures ParseAmount(PrintAmount(n)) == Success(n) <==> FitsPrecision(DEFAULT, n) && DigitCount(n) <= 1_000_000
  {
    RoundTripIn(DEFAULT, n);
  }

  /** No two amounts print alike, whatever their size. */
  lemma PrintIsInjective(a: nat, b: nat)
    requires PrintAmount(a) == PrintAmount(b)
    ensures a == b
  {
    PrintedReads(a);
    PrintedReads(b);
  }

  // ---- How many digits are safe ----

  /** An accepted text whose value is not the number it was read as. */
  ghost predicate Misread(ctx: Context, s: string, kopecks: nat) {
    Plain(s) && ParseIn(ctx, s) == Success(kopecks) && !IsExactly(ReadDecimal(s).value, kopecks)
  }

  /** A number of at most so many significant digits and decimal places. */
  predicate HasAtMost(s: string, digits: int, places: int) {
    && ReadDecimal(s).Some?
    && DigitCount(ReadDecimal(s).value.coefficient) <= digits && ReadDecimal(s).value.scale <= places
  }

  function Zeros(n: nat): (r: string)
    ensures |r| == n && AllDigits(r)
  {
    if n == 0 then "" else Zeros(n - 1) + [DigitChar(0)]
  }

  function BitTail(n: nat): (r: string)
    ensures AllDigits(r) && |r| == n + 1
  {
    Zeros(n) + [DigitChar(1)]
  }

  lemma {:induction false} OneAndZeros(n: nat)
    ensures AllDigits("1" + Zeros(n)) && Value("1" + Zeros(n)) == Pow10(n)
    ensures DigitCount(Pow10(n)) == n + 1
  {
    if n == 0 {
      assert "1" + Zeros(0) == "1" && "1"[..0] == "";
    } else {
      OneAndZeros(n - 1);
      ValueSnoc("1" + Zeros(n - 1), 0);
      assert "1" + Zeros(n) == "1" + Zeros(n - 1) + [DigitChar(0)];
      assert Pow10(n) / 10 == Pow10(n - 1);
    }
  }

  lemma BitValue(n: nat)
    ensures AllDigits("1" + BitTail(n)) && Value("1" + BitTail(n)) == 10 * Pow10(n) + 1
  {
    OneAndZeros(n);
    ValueSnoc("1" + Zeros(n), 1);
    assert "1" + BitTail(n) == "1" + Zeros(n) + [DigitChar(1)];
  }

  lemma {:induction false} NoDotAtAll(digits: string)
    requires AllDigits(digits)
    ensures DotIndex(digits) == |digits|
  {
    if digits != "" {
      NoDotAtAll(digits[1..]);
    }
  }

  lemma IntegerReads(digits: string)
    requires digits != "" && AllDigits(digits)
    ensures Plain(digits) && ReadDecimal(digits) == Some(Numeral(false, Value(digits), 0))
  {
    NoDotAtAll(digits);
    assert digits[..|digits|] == digits && digits + "" == digits;
  }

  lemma {:induction false} ZerosAreZero(n: nat)
    ensures AllDigits("0" + Zeros(n)) && Value("0" + Zeros(n)) == 0
  {
    if n == 0 {
      assert "0" + Zeros(0) == "0" && "0"[..0] == "";
    } else {
      ZerosAreZero(n - 1);
      ValueSnoc("0" + Zeros(n - 1), 0);
      assert "0" + Zeros(n) == "0" + Zeros(n - 1) + [DigitChar(0)];
    }
  }

  lemma SmallestReads(n: nat)
    ensures Plain("0" + "." + BitTail(n)) && ReadDecimal("0" + "." + BitTail(n)) == Some(Numeral(false, 1, n + 1))
  {
    ZerosAreZero(n);
    ValueSnoc("0" + Zeros(n), 1);
    assert "0" + BitTail(n) == "0" + Zeros(n) + [DigitChar(1)];
    PointedReads("0", BitTail(n));
    PointedIsPlain("0", BitTail(n));
  }

  lemma DigitsOfPowerPlusOne(n: nat)
    ensures DigitCount(10 * Pow10(n) + 1) == n + 2
  {
    OneAndZeros(n);
    assert (10 * Pow10(n) + 1) / 10 == Pow10(n);
  }

  lemma DropThree(p: nat)
    ensures HalfEven(100 * (10 * p + 1), 1000) == p
  {
    assert 100 * (10 * p + 1) == 1000 * p + 100;
  }

  lemma ThousandUnit()
    ensures Pow10(3) == 1000
  {
    HundredfoldUnit(1);
    assert Pow10(1) == 10 * Pow10(0);
  }

  lemma ThreeLost(ctx: Context, c: nat)
    requires c > 0 && DigitCount(c) == ctx.precision + 1
    ensures Lost(ctx, 100 * c, 0) == 3 && Pow10(Lost(ctx, 100 * c, 0)) == 1000
  {
    DigitsOfHundredfold(c);
    ThousandUnit();
  }

  lemma NotExact(p: nat)
    requires p >= 1
    ensures 100 * (10 * p + 1) != 1000 * p
  {
  }

  /** One digit too many: 10^precision + 1 roubles are read as 10^precision. */
  lemma LongIntegerMisread(ctx: Context, n: nat)
    requires n + 1 == ctx.precision && ctx.top >= ctx.precision + 3
    ensures Misread(ctx, "1" + BitTail(n), 1000 * Pow10(n)) && HasAtMost("1" + BitTail(n), ctx.precision + 1, 0)
  {
    var s, p := "1" + BitTail(n), Pow10(n);
    BitValue(n);
    IntegerReads(s);
    DigitsOfPowerPlusOne(n);
    ThreeLost(ctx, 10 * p + 1);
    DropThree(p);
    OneAndZeros(n);
    ParsesAs(ctx, s, Numeral(false, 10 * p + 1, 0), 3, p, 1000 * p);
    NotExact(p);
  }

  lemma UnderflowLost(ctx: Context)
    requires ctx.precision >= 1
    ensures Lost(ctx, 100, ctx.places + 3) == 3 && HalfEven(100, Pow10(3)) == 0
  {
    ThousandUnit();
    assert DigitCount(100) == 3 by {
      assert DigitCount(100) == 1 + DigitCount(10) && DigitCount(10) == 1 + DigitCount(1);
    }
  }

  /** One place too fine: the least positive text is read as nothing. */
  lemma SmallestMisread(ctx: Context, n: nat)
    requires ctx.precision >= 1 && n == ctx.places + 2
    ensures Misread(ctx, "0" + "." + BitTail(n), 0) && HasAtMost("0" + "." + BitTail(n), 1, n + 1)
  {
    var s, x := "0" + "." + BitTail(n), Numeral(false, 1, n + 1);
    SmallestReads(n);
    UnderflowLost(ctx);
    ParsesAs(ctx, s, x, 3, 0, 0);
    assert DigitCount(1) == 1;
  }

  lemma ShortIsExact(ctx: Context, s: string, kopecks: nat)
    requires HasAtMost(s, ctx.precision, ctx.places + 2)
    ensures !Misread(ctx, s, kopecks)
  {
    if Plain(s) {
      var x := ReadDecimal(s).value;
      LosesTwo(ctx, x);
      ExactOrRefused(ctx, s, x, kopecks);
    }
  }

  lemma ExactOrRefused(ctx: Context, s: string, x: Numeral, kopecks: nat)
    requires Plain(s) && ReadDecimal(s) == Some(x) && LosesNothing(ctx, x)
    ensures ParseIn(ctx, s) == Success(kopecks) ==> IsExactly(x, kopecks)
  {
    var lost := Lost(ctx, 100 * x.coefficient, x.scale);
    RoundedIffDivides(100 * x.coefficient, Pow10(lost));
    ParsesAs(ctx, s, x, lost, HalfEven(100 * x.coefficient, Pow10(lost)), kopecks);
  }

  /**
   In any context: all texts of at most so many digits and places are read
   exactly or refused, exactly when the digits are at most the precision and the
   places at most two more than the finest place.
   */
  lemma SafeIn(ctx: Context, digits: nat, places: nat)
    requires ctx.precision >= 1 && ctx.top >= ctx.precision + 3 && digits >= 1
    ensures (forall s, kopecks :: HasAtMost(s, digits, places) ==> !Misread(ctx, s, kopecks))
       <==> digits <= ctx.precision && places <= ctx.places + 2
  {
    if digits > ctx.precision {
      LongIntegerMisread(ctx, ctx.precision - 1);
      assert HasAtMost("1" + BitTail(ctx.precision - 1), digits, places);
    } else if places > ctx.places + 2 {
      SmallestMisread(ctx, ctx.places + 2);
      assert HasAtMost("0" + "." + BitTail(ctx.places + 2), digits, places);
    } else {
      forall s, kopecks | HasAtMost(s, digits, places) ensures !Misread(ctx, s, kopecks) {
        ShortIsExact(ctx, s, kopecks);
      }
    }
  }

  /** With the default context: 28 significant digits and 1000028 decimal places are safe, and no more. */
  lemma SafeDigitsAndPlaces(digits: nat, places: nat)
    requires digits >= 1
    ensures (forall s, kopecks :: HasAtMost(s, digits, places) ==> !Misread(DEFAULT, s, kopecks))
       <==> digits <= 28 && places <= 1_000_028
  {
    SafeIn(DEFAULT, digits, places);
  }
}
