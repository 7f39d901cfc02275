// gate/post.go: reading a Kubernetes quantity. Floats are modelled by reals.
module Quantity {
  import opened Prelude
  import opened Text

  // A decoded YAML value. Other stands for everything the walkers ignore: null,
  // booleans, timestamps and mappings with keys that are not strings.
  datatype Yaml =
    | Str(s: string) | Int(i: int) | Float(f: real)
    | Map(m: map<string, Yaml>) | Seq(items: seq<Yaml>) | Other

  // parseFloat's loop from one character on: digits accumulate, a dot switches to
  // the fraction, anything else ends the number.
  function FloatFrom(s: string, out: real, frac: real, inFrac: bool): real
    requires frac >= 1.0
    decreases |s|
  {
    if s == "" then out
    else if s[0] == '.' then FloatFrom(s[1..], out, frac, true)
    else if IsDigit(s[0]) then
      var d := DigitValue(s[0]) as real;
      if inFrac then FloatFrom(s[1..], out + d / (frac * 10.0), frac * 10.0, true)
      else FloatFrom(s[1..], out * 10.0 + d, frac, false)
    else out
  }

  function FloatValue(s: string): real { FloatFrom(s, 0.0, 1.0, false) }

  method ParseFloat(s: string) returns (out: real)
    ensures out == FloatValue(s)
  {
    var frac, inFrac := 1.0, false;
    out := 0.0;
    var i := 0;
    while i < |s|
      invariant 0 <= i <= |s| && frac >= 1.0
      invariant FloatValue(s) == FloatFrom(s[i..], out, frac, inFrac)
    {
      var r := s[i];
      assert s[i..][1..] == s[i + 1..];
      if r == '.' {
        inFrac := true;
      } else if IsDigit(r) {
        var d := DigitValue(r) as real;
        if inFrac {
          frac := frac * 10.0;
          out := out + d / frac;
        } else {
          out := out * 10.0 + d;
        }
      } else {
        return out;
      }
      i := i + 1;
    }
  }

  // The unit suffixes in the order they are tried.
  const UNITS: seq<(string, real)> := [
    ("Ei", 1152921504606846976.0), ("Pi", 1125899906842624.0), ("Ti", 1099511627776.0),
    ("Gi", 1073741824.0), ("Mi", 1048576.0), ("Ki", 1024.0),
    ("E", 1000000000000000000.0), ("P", 1000000000000000.0), ("T", 1000000000000.0),
    ("G", 1000000000.0), ("M", 1000000.0), ("K", 1000.0), ("m", 0.001)]

  function Scaled(s: string, units: seq<(string, real)>): real
    decreases |units|
  {
    if units == [] then FloatValue(s)
    else if HasSuffix(s, units[0].0) then FloatValue(s[..|s| - |units[0].0|]) * units[0].1
    else Scaled(s, units[1..])
  }

  function QuantityIn(v: Yaml, units: seq<(string, real)>): real {
    match v
    case Str(s) => var t := TrimSpace(s); if t == "" then 0.0 else Scaled(t, units)
    case Int(i) => i as real
    case Float(f) => f
    case _ => 0.0
  }

  function QuantityOf(v: Yaml): real { QuantityIn(v, UNITS) }

  method ParseScaled(s: string, units: seq<(string, real)>) returns (q: real)
    ensures q == Scaled(s, units)
  {
    for i := 0 to |units|
      invariant Scaled(s, units) == Scaled(s, units[i..])
    {
      assert units[i..][0] == units[i] && units[i..][1..] == units[i + 1..];
      var (suffix, mult) := units[i];
      if HasSuffix(s, suffix) {
        var n := ParseFloat(s[..|s| - |suffix|]);
        return n * mult;
      }
    }
    q := ParseFloat(s);
  }

  method ParseQuantity(v: Yaml) returns (q: real)
    ensures q == QuantityOf(v)
  {
    if !v.Str? {
      return match v case Int(i) => i as real case Float(f) => f case _ => 0.0;
    }
    var s := TrimSpace(v.s);
    if s == "" {
      return 0.0;
    }
    q := ParseScaled(s, UNITS);
  }

  // ------------------------------------------------- what the number means

  // The value of 0.s: each digit counts a tenth of the one before.
  function Fraction(s: string): real
    requires AllDigits(s)
  {
    if s == "" then 0.0 else (DigitValue(s[0]) as real + Fraction(s[1..])) / 10.0
  }

  // The digits of s read from the left onto a value of a.
  function Onto(s: string, a: nat): nat
    requires AllDigits(s)
    decreases |s|
  {
    if s == "" then a else Onto(s[1..], 10 * a + DigitValue(s[0]))
  }

  lemma {:induction false} OntoNatValue(s: string, a: nat, pre: string)
    requires AllDigits(s) && AllDigits(pre) && a == NatValue(pre)
    ensures Onto(s, a) == NatValue(pre + s)
    decreases |s|
  {
    if s == "" {
      assert pre + s == pre;
    } else {
      var next := pre + [s[0]];
      assert next[..|next| - 1] == pre;
      OntoNatValue(s[1..], 10 * a + DigitValue(s[0]), next);
      assert next + s[1..] == pre + s;
    }
  }

  lemma {:induction false} WholePart(s: string, a: nat, rest: string)
    requires AllDigits(s)
    ensures FloatFrom(s + rest, a as real, 1.0, false) == FloatFrom(rest, Onto(s, a) as real, 1.0, false)
    decreases |s|
  {
    if s == "" {
      assert s + rest == rest;
    } else {
      assert (s + rest)[1..] == s[1..] + rest;
      WholePart(s[1..], 10 * a + DigitValue(s[0]), rest);
    }
  }

  lemma TenthOf(d: real, f: real, p: real)
    requires p >= 1.0
    ensures d / (p * 10.0) + f / (p * 10.0) == ((d + f) / 10.0) / p
  {
  }

  lemma {:induction false} FractionPart(s: string, p: real, out: real)
    requires AllDigits(s) && p >= 1.0
    ensures FloatFrom(s, out, p, true) == out + Fraction(s) / p
    decreases |s|
  {
    if s == "" {
      assert 0.0 / p == 0.0;
    } else {
      var d, q := DigitValue(s[0]) as real, p * 10.0;
      FractionPart(s[1..], q, out + d / q);
      TenthOf(d, Fraction(s[1..]), p);
    }
  }

  // Digits denote their decimal value, and digits with a dot the decimal fraction.
  lemma WholeValue(whole: string)
    requires AllDigits(whole)
    ensures FloatValue(whole) == NatValue(whole) as real
  {
    WholePart(whole, 0, "");
    assert whole + "" == whole && "" + whole == whole;
    OntoNatValue(whole, 0, "");
  }

  lemma DotThenFraction(fraction: string, out: real)
    requires AllDigits(fraction)
    ensures FloatFrom(['.'] + fraction, out, 1.0, false) == out + Fraction(fraction)
  {
    assert (['.'] + fraction)[1..] == fraction;
    FractionPart(fraction, 1.0, out);
  }

  lemma DecimalValue(whole: string, fraction: string)
    requires AllDigits(whole) && AllDigits(fraction)
    ensures FloatValue(whole + (['.'] + fraction)) == NatValue(whole) as real + Fraction(fraction)
  {
    WholePart(whole, 0, ['.'] + fraction);
    OntoNatValue(whole, 0, "");
    assert "" + whole == whole;
    DotThenFraction(fraction, NatValue(whole) as real);
  }

  // ------------------------------------------------- units

  predicate Numeric(s: string) { forall c | c in s :: IsDigit(c) || c == '.' }

  predicate NoNumeric(u: string) { forall c | c in u :: !IsDigit(c) && c != '.' }

  // What is no suffix of the unit is no suffix of a number with that unit.
  lemma UnitSuffix(number: string, u: string, v: string)
    requires Numeric(number) && NoNumeric(v) && !HasSuffix(u, v)
    ensures !HasSuffix(number + u, v)
  {
    var s := number + u;
    if |v| <= |u| {
      assert s[|s| - |v|..] == u[|u| - |v|..];
    } else if |v| <= |s| {
      var k := |v| - |u| - 1;
      assert s[|s| - |v|..][k] == s[|number| - 1] == number[|number| - 1];
      assert number[|number| - 1] in number && v[k] in v;
    }
  }

  lemma {:induction false} FirstUnit(s: string, units: seq<(string, real)>, i: nat)
    requires i < |units| && HasSuffix(s, units[i].0)
    requires forall j | 0 <= j < i :: !HasSuffix(s, units[j].0)
    ensures Scaled(s, units) == FloatValue(s[..|s| - |units[i].0|]) * units[i].1
    decreases i
  {
    if i > 0 {
      FirstUnit(s, units[1..], i - 1);
    }
  }

  lemma {:induction false} NoUnit(s: string, units: seq<(string, real)>)
    requires forall j | 0 <= j < |units| :: !HasSuffix(s, units[j].0)
    ensures Scaled(s, units) == FloatValue(s)
    decreases |units|
  {
    if units != [] {
      NoUnit(s, units[1..]);
    }
  }

  lemma UnitsOrdered(i: nat, j: nat)
    requires j < i < |UNITS|
    ensures !HasSuffix(UNITS[i].0, UNITS[j].0)
  {
  }

  lemma UnitShape(i: nat)
    requires i < |UNITS|
    ensures NoNumeric(UNITS[i].0) && UNITS[i].0 != "" && !IsSpace(UNITS[i].0[|UNITS[i].0| - 1])
  {
  }

  lemma TrimmedNumber(number: string, u: string)
    requires Numeric(number) && number != "" && u != "" && !IsSpace(u[|u| - 1])
    ensures TrimSpace(number + u) == number + u
  {
    assert number[0] in number && (number + u)[0] == number[0];
  }

  lemma ScaledNumber(number: string, units: seq<(string, real)>, i: nat)
    requires Numeric(number) && i < |units|
    requires forall j | 0 <= j <= i :: NoNumeric(units[j].0)
    requires forall j | 0 <= j < i :: !HasSuffix(units[i].0, units[j].0)
    ensures Scaled(number + units[i].0, units) == FloatValue(number) * units[i].1
  {
    var u := units[i].0;
    var s := number + u;
    forall j | 0 <= j < i ensures !HasSuffix(s, units[j].0) {
      UnitSuffix(number, u, units[j].0);
    }
    assert s[..|s| - |u|] == number && s[|s| - |u|..] == u;
    FirstUnit(s, units, i);
  }

  // Every unit is a nonempty text without digits, dots or a trailing space, and
  // longer suffixes come first, so that no unit hides a later one.
  ghost predicate Readable(units: seq<(string, real)>) {
    (forall i | 0 <= i < |units| ::
       NoNumeric(units[i].0) && units[i].0 != "" && !IsSpace(units[i].0[|units[i].0| - 1])) &&
    (forall i, j | 0 <= j < i < |units| :: !HasSuffix(units[i].0, units[j].0))
  }

  lemma UnitsReadable()
    ensures Readable(UNITS)
  {
    forall i | 0 <= i < |UNITS|
      ensures NoNumeric(UNITS[i].0) && UNITS[i].0 != "" && !IsSpace(UNITS[i].0[|UNITS[i].0| - 1])
    {
      UnitShape(i);
    }
    forall i, j | 0 <= j < i < |UNITS| ensures !HasSuffix(UNITS[i].0, UNITS[j].0) {
      UnitsOrdered(i, j);
    }
  }

  lemma TrimmedQuantity(t: string, units: seq<(string, real)>)
    requires t != "" && TrimSpace(t) == t
    ensures QuantityIn(Str(t), units) == Scaled(t, units)
  {
  }

  // A number, whole or decimal, with a readable unit is its own value times the unit.
  lemma UnitValue(number: string, units: seq<(string, real)>, i: nat)
    requires Readable(units) && i < |units| && Numeric(number) && number != ""
    ensures QuantityIn(Str(number + units[i].0), units) == FloatValue(number) * units[i].1
  {
    var u := units[i].0;
    TrimmedNumber(number, u);
    TrimmedQuantity(number + u, units);
    ScaledNumber(number, units, i);
  }
}
