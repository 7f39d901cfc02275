// Which Kubernetes quantities gate/post.go reads right. The reference is the format of
// the Kubernetes type resource.Quantity: an optional sign, a decimal number, and a
// unit or a decimal exponent.
module QuantityReading {
  import opened Prelude
  import opened Text
  import opened Quantity

  // A table of units: the code's is UNITS.
  type Table = seq<(string, real)>

  datatype Sign = Bare | Plus | Minus

  datatype Suffix =
    | Unit(i: nat)    // a place in the code's table; its K is no unit of the format
    | Extra(o: nat)   // a place in OTHERS
    | Exponent(capital: bool, sign: Sign, digits: string)

  datatype Written = Written(sign: Sign, whole: string, fraction: Option<string>, suffix: Suffix)

  // The units that the format has and the code's table has not; no unit is one.
  const OTHERS: seq<(string, real)> := [("", 1.0), ("k", 1000.0), ("u", 0.000001), ("n", 0.000000001)]

  ghost predicate Valid(q: Written, units: Table) {
    && AllDigits(q.whole) && (q.fraction.Some? ==> AllDigits(q.fraction.value))
    && (q.whole != "" || (q.fraction.Some? && q.fraction.value != ""))
    && match q.suffix
       case Unit(i) => i < |units|
       case Extra(o) => o < |OTHERS|
       case Exponent(_, _, digits) => AllDigits(digits) && digits != ""
  }

  function SignText(s: Sign): string {
    match s
    case Bare => ""
    case Plus => "+"
    case Minus => "-"
  }

  function NumberText(q: Written): string {
    q.whole + if q.fraction.Some? then ['.'] + q.fraction.value else ""
  }

  function SuffixText(s: Suffix, units: Table): string
    requires s.Unit? ==> s.i < |units|
    requires s.Extra? ==> s.o < |OTHERS|
  {
    match s
    case Unit(i) => units[i].0
    case Extra(o) => OTHERS[o].0
    case Exponent(capital, sign, digits) => (if capital then "E" else "e") + (SignText(sign) + digits)
  }

  function TextOf(q: Written, units: Table): string
    requires q.suffix.Unit? ==> q.suffix.i < |units|
    requires q.suffix.Extra? ==> q.suffix.o < |OTHERS|
  {
    SignText(q.sign) + (NumberText(q) + SuffixText(q.suffix, units))
  }

  // ------------------------------------------------- what the text denotes

  function Pow10(x: int): real
    decreases if x < 0 then -x else x
  {
    if x == 0 then 1.0 else if x > 0 then 10.0 * Pow10(x - 1) else Pow10(x + 1) / 10.0
  }

  function Number(q: Written): real
    requires AllDigits(q.whole) && (q.fraction.Some? ==> AllDigits(q.fraction.value))
  {
    NatValue(q.whole) as real + if q.fraction.Some? then Fraction(q.fraction.value) else 0.0
  }

  function Power(sign: Sign, digits: string): int
    requires AllDigits(digits)
  {
    var n: int := NatValue(digits);
    if sign == Minus then -n else n
  }

  function Multiplier(s: Suffix, units: Table): real
    requires s.Unit? ==> s.i < |units|
    requires s.Extra? ==> s.o < |OTHERS|
    requires s.Exponent? ==> AllDigits(s.digits)
  {
    match s
    case Unit(i) => units[i].1
    case Extra(o) => OTHERS[o].1
    case Exponent(_, sign, digits) => Pow10(Power(sign, digits))
  }

  ghost function Value(q: Written, units: Table): real
    requires Valid(q, units)
  {
    var v := Number(q) * Multiplier(q.suffix, units);
    if q.sign == Minus then -v else v
  }

  // ------------------------------------------------- what the code reads

  predicate Stops(rest: string) { rest == "" || (!IsDigit(rest[0]) && rest[0] != '.') }

  lemma {:induction false} FloatStops(number: string, rest: string, out: real, frac: real, inFrac: bool)
    requires Numeric(number) && Stops(rest) && frac >= 1.0
    ensures FloatFrom(number + rest, out, frac, inFrac) == FloatFrom(number, out, frac, inFrac)
    decreases |number|
  {
    if number == "" {
      assert number + rest == rest;
    } else {
      assert number[0] in number && (number + rest)[1..] == number[1..] + rest;
      if number[0] == '.' {
        FloatStops(number[1..], rest, out, frac, true);
      } else if inFrac {
        FloatStops(number[1..], rest, out + DigitValue(number[0]) as real / (frac * 10.0), frac * 10.0, true);
      } else {
        FloatStops(number[1..], rest, out * 10.0 + DigitValue(number[0]) as real, frac, false);
      }
    }
  }

  lemma NumberIsNumeric(q: Written, units: Table)
    requires Valid(q, units)
    ensures Numeric(NumberText(q)) && NumberText(q) != ""
  {
  }

  lemma NumberRead(q: Written, rest: string, units: Table)
    requires Valid(q, units) && Stops(rest)
    ensures FloatValue(NumberText(q) + rest) == Number(q)
  {
    NumberIsNumeric(q, units);
    FloatStops(NumberText(q), rest, 0.0, 1.0, false);
    if q.fraction.Some? {
      DecimalValue(q.whole, q.fraction.value);
    } else {
      assert NumberText(q) == q.whole;
      WholeValue(q.whole);
    }
  }

  // What is needed of the code's table: its order is sound, each unit scales by a
  // positive factor, and none ends in a digit, in k, u or n.
  ghost predicate Fine(units: Table) {
    Readable(units) && forall j | 0 <= j < |units| :: units[j].1 > 0.0 && TableEnd(units[j].0)
  }

  predicate TableEnd(u: string) { u != "" && u[|u| - 1] in {'i', 'E', 'P', 'T', 'G', 'M', 'K', 'm'} }

  lemma UnitEnds(j: nat)
    requires j < |UNITS|
    ensures TableEnd(UNITS[j].0) && UNITS[j].1 > 0.0
  {
  }

  lemma UnitsFine()
    ensures Fine(UNITS)
  {
    UnitsReadable();
    forall j | 0 <= j < |UNITS| ensures UNITS[j].1 > 0.0 && TableEnd(UNITS[j].0) {
      UnitEnds(j);
    }
  }

  lemma NoTableEnd(s: string, units: Table)
    requires Fine(units) && s != "" && !TableEnd(s)
    ensures Scaled(s, units) == FloatValue(s)
  {
    forall j | 0 <= j < |units| ensures !HasSuffix(s, units[j].0) {
      var u := units[j].0;
      assert TableEnd(u);
      assert |u| <= |s| ==> s[|s| - |u|..][|u| - 1] == s[|s| - 1];
    }
    NoUnit(s, units);
  }

  lemma Untrimmed(s: string, units: Table)
    requires s != "" && !IsSpace(s[0]) && !IsSpace(s[|s| - 1])
    ensures QuantityIn(Str(s), units) == Scaled(s, units)
  {
    assert TrimSpace(s) == s;
    TrimmedQuantity(s, units);
  }

  lemma Ends(n: string, rest: string)
    requires Numeric(n) && n != ""
    ensures var s := n + rest;
            s != "" && !IsSpace(s[0]) && s[|s| - 1] == if rest == "" then n[|n| - 1] else rest[|rest| - 1]
    ensures !IsSpace(n[|n| - 1]) && !TableEnd(n)
  {
    var s := n + rest;
    assert n[0] in n && s[0] == n[0] && n[|n| - 1] in n;
  }

  // A number without a unit of the table reads as the number alone.
  lemma UnitIgnored(q: Written, rest: string, units: Table)
    requires Valid(q, units) && Fine(units) && Stops(rest)
    requires rest != "" ==> !IsSpace(rest[|rest| - 1]) && !TableEnd(rest)
    ensures QuantityIn(Str(NumberText(q) + rest), units) == Number(q)
  {
    NumberIsNumeric(q, units);
    Ends(NumberText(q), rest);
    var s := NumberText(q) + rest;
    NoTableEnd(s, units);
    Untrimmed(s, units);
    NumberRead(q, rest, units);
  }

  lemma {:induction false} SignedIsZero(s: string, units: Table)
    requires s != "" && (s[0] == '+' || s[0] == '-')
    ensures Scaled(s, units) == 0.0
    decreases |units|
  {
    if units != [] {
      if HasSuffix(s, units[0].0) {
        var t := s[..|s| - |units[0].0|];
        assert t == "" || t[0] == s[0];
        assert FloatValue(t) == 0.0;
      } else {
        SignedIsZero(s, units[1..]);
      }
    }
  }

  lemma SignedText(sign: string, t: string, units: Table)
    requires (sign == "+" || sign == "-") && t != "" && !IsSpace(t[|t| - 1])
    ensures QuantityIn(Str(sign + t), units) == 0.0
  {
    var s := sign + t;
    assert s[0] == sign[0] && s[|s| - 1] == t[|t| - 1];
    SignedIsZero(s, units);
    Untrimmed(s, units);
  }

  lemma SuffixEnds(s: Suffix, units: Table)
    requires s.Unit? ==> s.i < |units|
    requires s.Extra? ==> s.o < |OTHERS|
    requires s.Exponent? ==> AllDigits(s.digits) && s.digits != ""
    requires Fine(units) && SuffixText(s, units) != ""
    ensures var t := SuffixText(s, units); !IsSpace(t[|t| - 1]) && (!s.Unit? ==> Stops(t) && !TableEnd(t))
  {
    if s.Exponent? {
      var t := SuffixText(s, units);
      assert s.digits[|s.digits| - 1] in s.digits && t[|t| - 1] == s.digits[|s.digits| - 1];
    }
  }

  // What the code reads: 0 after a sign; the value for a unit of its table; and the
  // number alone, whatever k, u, n or exponent follows, otherwise.
  ghost function Read(q: Written, units: Table): real
    requires Valid(q, units)
  {
    if q.sign != Bare then 0.0
    else if q.suffix.Unit? then Number(q) * Multiplier(q.suffix, units)
    else Number(q)
  }

  lemma ReadsUnit(q: Written, units: Table)
    requires Valid(q, units) && Fine(units) && q.suffix.Unit?
    ensures QuantityIn(Str(NumberText(q) + SuffixText(q.suffix, units)), units) ==
            Number(q) * Multiplier(q.suffix, units)
  {
    NumberIsNumeric(q, units);
    UnitValue(NumberText(q), units, q.suffix.i);
    NumberRead(q, "", units);
    assert NumberText(q) + "" == NumberText(q);
  }

  lemma ReadsNumber(q: Written, units: Table)
    requires Valid(q, units) && Fine(units) && !q.suffix.Unit?
    ensures QuantityIn(Str(NumberText(q) + SuffixText(q.suffix, units)), units) == Number(q)
  {
    if SuffixText(q.suffix, units) != "" {
      SuffixEnds(q.suffix, units);
    }
    UnitIgnored(q, SuffixText(q.suffix, units), units);
  }

  lemma BareText(q: Written, units: Table)
    requires Valid(q, units) && q.sign == Bare
    ensures TextOf(q, units) == NumberText(q) + SuffixText(q.suffix, units)
  {
  }

  lemma ReadsBare(q: Written, units: Table)
    requires Valid(q, units) && Fine(units) && q.sign == Bare
    ensures QuantityIn(Str(TextOf(q, units)), units) == Read(q, units)
  {
    BareText(q, units);
    if q.suffix.Unit? {
      ReadsUnit(q, units);
    } else {
      ReadsNumber(q, units);
    }
  }

  lemma ReadsSigned(q: Written, units: Table)
    requires Valid(q, units) && Fine(units) && q.sign != Bare
    ensures QuantityIn(Str(TextOf(q, units)), units) == 0.0
  {
    var n, rest := NumberText(q), SuffixText(q.suffix, units);
    NumberIsNumeric(q, units);
    Ends(n, rest);
    if rest != "" {
      SuffixEnds(q.suffix, units);
    }
    SignedText(SignText(q.sign), n + rest, units);
  }

  lemma ReadsAs(q: Written, units: Table)
    requires Valid(q, units) && Fine(units)
    ensures QuantityIn(Str(TextOf(q, units)), units) == Read(q, units)
  {
    if q.sign == Bare {
      ReadsBare(q, units);
    } else {
      ReadsSigned(q, units);
    }
  }

  // ------------------------------------------------- when that is right

  lemma {:induction false} Pow10Shape(x: int)
    ensures Pow10(x) > 0.0
    ensures x > 0 ==> Pow10(x) >= 10.0
    ensures x < 0 ==> Pow10(x) <= 0.1
    decreases if x < 0 then -x else x
  {
    if x > 0 {
      Pow10Shape(x - 1);
    } else if x < 0 {
      Pow10Shape(x + 1);
    }
  }

  lemma NonzeroProduct(a: real, b: real)
    requires a != 0.0 && b != 0.0
    ensures a * b != 0.0
  {
    if a > 0.0 && b > 0.0 {
      assert a * b > 0.0;
    } else if a > 0.0 {
      assert a * -b > 0.0;
    } else if b > 0.0 {
      assert -a * b > 0.0;
    } else {
      assert -a * -b > 0.0;
    }
  }

  lemma Product(x: real, m: real, v: real)
    requires m > 0.0 && v == x * m
    ensures v == 0.0 <==> x == 0.0
    ensures v == x <==> x == 0.0 || m == 1.0
  {
    if x != 0.0 {
      NonzeroProduct(x, m);
      if m != 1.0 {
        NonzeroProduct(x, m - 1.0);
        assert x * (m - 1.0) == x * m - x;
      }
    }
  }

  lemma MultiplierPositive(q: Written, units: Table)
    requires Valid(q, units) && Fine(units)
    ensures Multiplier(q.suffix, units) > 0.0
  {
    if q.suffix.Exponent? {
      Pow10Shape(Power(q.suffix.sign, q.suffix.digits));
    }
  }

  // The multiplier is one exactly for no unit and for the exponent zero.
  lemma MultiplierOne(q: Written, units: Table)
    requires Valid(q, units) && !q.suffix.Unit?
    ensures Multiplier(q.suffix, units) == 1.0 <==>
            if q.suffix.Extra? then q.suffix.o == 0 else NatValue(q.suffix.digits) == 0
  {
    if q.suffix.Exponent? {
      Pow10Shape(Power(q.suffix.sign, q.suffix.digits));
    }
  }

  ghost predicate Scales(q: Written, units: Table)
    requires Valid(q, units)
  {
    q.sign == Bare &&
    match q.suffix
    case Unit(_) => true
    case Extra(o) => o == 0
    case Exponent(_, _, digits) => NatValue(digits) == 0
  }

  lemma RightIff(n: real, m: real, v: real, sign: Sign, unit: bool)
    requires m > 0.0 && v == n * m
    ensures (if sign != Bare then 0.0 else if unit then v else n) == (if sign == Minus then -v else v) <==>
            n == 0.0 || (sign == Bare && (unit || m == 1.0))
  {
    Product(n, m, v);
  }

  lemma ReadIsValue(q: Written, units: Table)
    requires Valid(q, units) && Fine(units)
    ensures Read(q, units) == Value(q, units) <==> Number(q) == 0.0 || Scales(q, units)
  {
    var n, m := Number(q), Multiplier(q.suffix, units);
    MultiplierPositive(q, units);
    RightIff(n, m, n * m, q.sign, q.suffix.Unit?);
    if !q.suffix.Unit? {
      MultiplierOne(q, units);
    }
  }

  // A quantity of the format is read right exactly when it is zero, or has no sign and
  // either a unit of the code's table, no unit, or an exponent of zero.
  lemma ReadRightIff(q: Written)
    requires Valid(q, UNITS)
    ensures QuantityOf(Str(TextOf(q, UNITS))) == Value(q, UNITS) <==> Number(q) == 0.0 || Scales(q, UNITS)
  {
    UnitsFine();
    ReadsAs(q, UNITS);
    ReadIsValue(q, UNITS);
  }

  // A cut by a factor of a thousand, from 1k to 1 for one, does not show.
  lemma KiloIsIgnored(q: Written)
    requires Valid(q, UNITS) && q.sign == Bare && q.suffix == Extra(0)
    ensures var kilo := q.(suffix := Extra(1));
            QuantityOf(Str(TextOf(kilo, UNITS))) == QuantityOf(Str(TextOf(q, UNITS))) &&
            Value(kilo, UNITS) == 1000.0 * Value(q, UNITS)
  {
    UnitsFine();
    ReadsAs(q, UNITS);
    ReadsAs(q.(suffix := Extra(1)), UNITS);
  }
}
