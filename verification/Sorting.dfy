// Sorting by text keys: what sort.Slice does with the comparisons used in
// internal/analyze/diff.go and agent/prom/scraper.go.
module Sorting {
  // Byte order on strings.
  predicate Less(a: string, b: string) {
    b != "" && (a == "" || a[0] < b[0] || (a[0] == b[0] && Less(a[1..], b[1..])))
  }

  // Field by field, the first difference deciding.
  predicate Before(a: seq<string>, b: seq<string>) {
    b != [] && (a == [] || Less(a[0], b[0]) || (a[0] == b[0] && Before(a[1..], b[1..])))
  }

  lemma {:induction false} LessTotal(a: string, b: string)
    ensures a == b || Less(a, b) || Less(b, a)
    ensures !(Less(a, b) && Less(b, a)) && !Less(a, a)
  {
    if a != "" && b != "" {
      LessTotal(a[1..], b[1..]);
      assert a == [a[0]] + a[1..] && b == [b[0]] + b[1..];
    }
    if a != "" {
      LessTotal(a[1..], a[1..]);
    }
  }

  lemma {:induction false} LessTransitive(a: string, b: string, c: string)
    requires Less(a, b) && Less(b, c)
    ensures Less(a, c)
  {
    if a != "" && a[0] == b[0] == c[0] {
      LessTransitive(a[1..], b[1..], c[1..]);
    }
  }

  lemma {:induction false} BeforeTotal(a: seq<string>, b: seq<string>)
    ensures a == b || Before(a, b) || Before(b, a)
    ensures !(Before(a, b) && Before(b, a)) && !Before(a, a)
  {
    if a != [] && b != [] {
      LessTotal(a[0], b[0]);
      BeforeTotal(a[1..], b[1..]);
      assert a == [a[0]] + a[1..] && b == [b[0]] + b[1..];
    }
    if a != [] {
      LessTotal(a[0], a[0]);
      BeforeTotal(a[1..], a[1..]);
    }
  }

  lemma {:induction false} BeforeTransitive(a: seq<string>, b: seq<string>, c: seq<string>)
    requires Before(a, b) && Before(b, c)
    ensures Before(a, c)
  {
    if a != [] {
      if Less(a[0], b[0]) && Less(b[0], c[0]) {
        LessTransitive(a[0], b[0], c[0]);
      } else if a[0] == b[0] == c[0] && !Less(a[0], b[0]) && !Less(b[0], c[0]) {
        BeforeTransitive(a[1..], b[1..], c[1..]);
      }
    }
  }

  ghost predicate Sorted<T>(xs: seq<T>, key: T -> seq<string>) {
    forall i, j | 0 <= i < j < |xs| :: Before(key(xs[i]), key(xs[j]))
  }

  // There is only one way to put given elements in strict order.
  lemma {:induction false} SortedUnique<T>(xs: seq<T>, ys: seq<T>, key: T -> seq<string>)
    requires Sorted(xs, key) && Sorted(ys, key)
    requires forall x :: x in xs <==> x in ys
    ensures xs == ys
  {
    assert |xs| > 0 ==> xs[0] in ys;
    assert |ys| > 0 ==> ys[0] in xs;
    if xs != [] {
      BeforeTotal(key(xs[0]), key(ys[0]));
      assert xs[0] == ys[0];
      BeforeTotal(key(xs[0]), key(xs[0]));
      forall x ensures x in xs[1..] <==> x in ys[1..] {
        assert x in xs[1..] ==> x in ys && x != xs[0];
        assert x in ys[1..] ==> x in xs && x != ys[0];
      }
      SortedUnique(xs[1..], ys[1..], key);
    }
  }

  // Any sort will do: elements with distinct keys have only one order.
  method Sort<T>(xs: seq<T>, key: T -> seq<string>) returns (ys: seq<T>)
    requires forall i, j | 0 <= i < j < |xs| :: key(xs[i]) != key(xs[j])
    ensures Sorted(ys, key)
    ensures forall x :: x in ys <==> x in xs
  {
    ys := [];
    for n := 0 to |xs|
      invariant Sorted(ys, key)
      invariant forall x :: x in ys <==> x in xs[..n]
    {
      ys := Insert(xs[n], ys, key);
      assert xs[..n + 1] == xs[..n] + [xs[n]];
    }
    assert xs[..|xs|] == xs;
  }

  method Insert<T>(x: T, xs: seq<T>, key: T -> seq<string>) returns (ys: seq<T>)
    requires Sorted(xs, key) && forall y | y in xs :: key(y) != key(x)
    ensures Sorted(ys, key)
    ensures forall y :: y in ys <==> y in xs || y == x
  {
    var i := 0;
    while i < |xs| && Before(key(xs[i]), key(x))
      invariant 0 <= i <= |xs|
      invariant forall j | 0 <= j < i :: Before(key(xs[j]), key(x))
    {
      i := i + 1;
    }
    forall j | i <= j < |xs| ensures Before(key(x), key(xs[j])) {
      BeforeTotal(key(x), key(xs[i]));
      if i < j { BeforeTransitive(key(x), key(xs[i]), key(xs[j])); }
    }
    ys := xs[..i] + [x] + xs[i..];
    assert forall y :: y in xs <==> y in xs[..i] || y in xs[i..];
  }
}
