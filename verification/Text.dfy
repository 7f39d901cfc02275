// The string operations the modelled code takes from Go's strings and strconv
// packages. Strings are sequences of characters; a line separator is '\n'.
module Text {
  import opened Prelude

  // ---- Lines: strings.Split(s, "\n") and strings.Join(ls, "\n") ----

  function Split(s: string): (lines: seq<string>)
    ensures |lines| >= 1
    ensures forall l | l in lines :: '\n' !in l
  {
    if s == "" then [""]
    else
      var rest := Split(s[1..]);
      if s[0] == '\n' then [""] + rest else [[s[0]] + rest[0]] + rest[1..]
  }

  function Join(lines: seq<string>): string {
    if |lines| == 0 then ""
    else if |lines| == 1 then lines[0]
    else lines[0] + "\n" + Join(lines[1..])
  }

  lemma {:induction false} JoinSplit(s: string)
    ensures Join(Split(s)) == s
  {
    if s != "" {
      var rest := Split(s[1..]);
      JoinSplit(s[1..]);
      if s[0] == '\n' {
        assert Split(s)[1..] == rest;
      } else if |rest| == 1 {
      } else {
        assert Split(s)[1..] == rest[1..];
        assert Join(rest) == rest[0] + "\n" + Join(rest[1..]);
        assert Join(Split(s)) == [s[0]] + Join(rest);
      }
    }
  }

  lemma {:induction false} SplitLine(line: string)
    requires '\n' !in line
    ensures Split(line) == [line]
  {
    if line != "" {
      SplitLine(line[1..]);
      assert [line[0]] + line[1..] == line;
    }
  }

  lemma {:induction false} SplitFirst(line: string, tail: string)
    requires '\n' !in line
    ensures Split(line + "\n" + tail) == [line] + Split(tail)
  {
    var s := line + "\n" + tail;
    if line == "" {
      assert s[1..] == tail;
    } else {
      assert s[1..] == line[1..] + "\n" + tail;
      SplitFirst(line[1..], tail);
      assert [line[0]] + line[1..] == line;
    }
  }

  lemma {:induction false} SplitJoin(lines: seq<string>)
    requires |lines| >= 1
    requires forall l | l in lines :: '\n' !in l
    ensures Split(Join(lines)) == lines
  {
    if |lines| == 1 {
      SplitLine(lines[0]);
    } else {
      SplitJoin(lines[1..]);
      SplitFirst(lines[0], Join(lines[1..]));
    }
  }

  // Terminating a text with a newline adds one empty line when it is split.
  lemma {:induction false} SplitTerminated(s: string)
    ensures Split(s + "\n") == Split(s) + [""]
  {
    if s == "" {
      assert ("\n")[1..] == "";
    } else {
      assert (s + "\n")[1..] == s[1..] + "\n";
      SplitTerminated(s[1..]);
    }
  }

  // ---- Prefixes and white space ----

  predicate HasPrefix(s: string, prefix: string) {
    |prefix| <= |s| && s[..|prefix|] == prefix
  }

  predicate HasSuffix(s: string, suffix: string) {
    |suffix| <= |s| && s[|s| - |suffix|..] == suffix
  }

  // unicode.IsSpace
  predicate IsSpace(c: char) {
    c == '\t' || c == '\n' || c == '\U{0B}' || c == '\U{0C}' || c == '\r' || c == ' ' ||
    c == '\U{85}' || c == '\U{A0}' || c == '\U{1680}' || '\U{2000}' <= c <= '\U{200A}' ||
    c == '\U{2028}' || c == '\U{2029}' || c == '\U{202F}' || c == '\U{205F}' || c == '\U{3000}'
  }

  function TrimLeft(s: string): string {
    if s != "" && IsSpace(s[0]) then TrimLeft(s[1..]) else s
  }

  function TrimRight(s: string): string {
    if s != "" && IsSpace(s[|s| - 1]) then TrimRight(s[..|s| - 1]) else s
  }

  function TrimSpace(s: string): string {
    TrimRight(TrimLeft(s))
  }

  // strings.IndexByte, with |s| where Go returns -1
  function IndexOf(s: string, c: char): (i: nat)
    ensures i <= |s|
    ensures i < |s| ==> s[i] == c
    ensures c !in s[..i]
  {
    if s == "" then 0
    else if s[0] == c then 0
    else
      var r := IndexOf(s[1..], c);
      assert s[..1 + r] == [s[0]] + s[1..][..r];
      1 + r
  }

  // Two texts split at the last occurrence of a separator split alike.
  lemma LastSeparator(p: string, q: string, c: char, a: string, b: string)
    requires p + [c] + a == q + [c] + b && c !in a && c !in b
    ensures p == q && a == b
  {
    var s := p + [c] + a;
    assert s[|p|] == c && s[|q|] == c;
    assert forall i | |p| < i < |s| :: s[i] == a[i - |p| - 1] != c;
    assert forall i | |q| < i < |s| :: s[i] == b[i - |q| - 1] != c;
    assert p == s[..|p|] == q && a == s[|p| + 1..] == b;
  }

  // ---- Decimal numbers ----

  const INT64_MAX := 0x7FFF_FFFF_FFFF_FFFF

  predicate IsDigit(c: char) { '0' <= c <= '9' }

  function DigitValue(c: char): (d: nat)
    requires IsDigit(c)
    ensures d < 10
  {
    c as int - '0' as int
  }

  function DigitChar(d: nat): (c: char)
    requires d < 10
    ensures IsDigit(c) && DigitValue(c) == d
  {
    ('0' as int + d) as char
  }

  predicate AllDigits(s: string) { forall c | c in s :: IsDigit(c) }

  function NatValue(s: string): nat
    requires AllDigits(s)
  {
    if s == "" then 0 else 10 * NatValue(s[..|s| - 1]) + DigitValue(s[|s| - 1])
  }

  function Decimal(n: nat): (s: string)
    ensures |s| > 0 && AllDigits(s)
    ensures NatValue(s) == n
  {
    if n < 10 then [DigitChar(n)]
    else
      var s := Decimal(n / 10) + [DigitChar(n % 10)];
      assert s[..|s| - 1] == Decimal(n / 10);
      s
  }

  // strconv.Atoi: an optional sign, then digits only, within 64 bits.
  function Atoi(s: string): Option<int> {
    var negative := HasPrefix(s, "-");
    var digits := if negative || HasPrefix(s, "+") then s[1..] else s;
    if digits == "" || !AllDigits(digits) then None
    else
      var n: int := NatValue(digits);
      var v := if negative then -n else n;
      if -INT64_MAX - 1 <= v <= INT64_MAX then Some(v) else None
  }

  lemma AtoiDecimal(n: nat)
    requires n <= INT64_MAX
    ensures Atoi(Decimal(n)) == Some(n)
  {
    var s := Decimal(n);
    assert IsDigit(s[0]);
    assert s[..1] == [s[0]];
    assert s[..1] != "-" by { assert ("-")[0] == '-'; }
    assert s[..1] != "+" by { assert ("+")[0] == '+'; }
  }
}
