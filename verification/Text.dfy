/** Strings as the modelled programs use them: decimal numerals, and splitting on a separator. */
module Text {

  predicate IsDigit(c: char) {
    '0' <= c <= '9'
  }

  predicate AllDigits(s: string) {
    forall i :: 0 <= i < |s| ==> IsDigit(s[i])
  }

  function DigitValue(c: char): (d: nat)
    requires IsDigit(c)
    ensures d < 10
  {
    c as int - '0' as int
  }

  function DigitChar(d: nat): (c: char)
    requires d < 10
    ensures IsDigit(c) && DigitValue(c) == d
  {
    (d + '0' as int) as char
  }

  /** The number a digit string denotes; leading zeros are allowed. */
  function ParseNat(s: string): nat
    requires AllDigits(s)
  {
    if s == [] then 0 else 10 * ParseNat(s[..|s| - 1]) + DigitValue(s[|s| - 1])
  }

  /** The shortest decimal numeral of a number. */
  function ToDecimal(n: nat): (s: string)
    ensures AllDigits(s) && s != [] && ParseNat(s) == n
  {
    if n < 10 then [DigitChar(n)] else
      var front := ToDecimal(n / 10);
      var s := front + [DigitChar(n % 10)];
      assert s[..|s| - 1] == front;
      s
  }

  lemma NumeralAvoids(n: nat, c: char)
    requires !IsDigit(c)
    ensures c !in ToDecimal(n)
  {
    var s := ToDecimal(n);
    assert forall i :: 0 <= i < |s| ==> IsDigit(s[i]);
  }

  /** Signed numerals, as `std::to_string` and `stoi` have them. */
  function IntToDecimal(n: int): (s: string)
    ensures s != []
  {
    if n < 0 then "-" + ToDecimal(-n) else ToDecimal(n)
  }

  predicate IsNumeral(s: string) {
    s != [] && (if s[0] == '-' then |s| > 1 && AllDigits(s[1..]) else AllDigits(s))
  }

  function ParseInt(s: string): int
    requires IsNumeral(s)
  {
    if s[0] == '-' then 0 - ParseNat(s[1..]) else ParseNat(s)
  }

  lemma IntRoundTrip(n: int)
    ensures IsNumeral(IntToDecimal(n))
    ensures ParseInt(IntToDecimal(n)) == n
  {
    var s := IntToDecimal(n);
    if n < 0 {
      assert s[1..] == ToDecimal(-n);
    } else {
      assert IsDigit(ToDecimal(n)[0]);
    }
  }

  function Pow10(k: nat): (p: nat)
    ensures p > 0
  {
    if k == 0 then 1 else 10 * Pow10(k - 1)
  }

  /** Reading two digit strings written one after the other. */
  lemma {:induction false} ParseConcat(a: string, b: string)
    requires AllDigits(a) && AllDigits(b)
    ensures AllDigits(a + b)
    ensures ParseNat(a + b) == ParseNat(a) * Pow10(|b|) + ParseNat(b)
  {
    if b == [] {
      assert a + b == a;
    } else {
      var c := b[..|b| - 1];
      assert (a + b)[..|a + b| - 1] == a + c;
      ParseConcat(a, c);
      ShiftDigit(ParseNat(a), Pow10(|c|), ParseNat(c), DigitValue(b[|b| - 1]));
    }
  }

  lemma ParseConcatZero(a: string, b: string)
    requires AllDigits(a) && AllDigits(b)
    ensures AllDigits(a + b)
    ensures ParseNat(a + b) == 0 <==> ParseNat(a) == 0 && ParseNat(b) == 0
  {
    ParseConcat(a, b);
    ProductZero(ParseNat(a), Pow10(|b|));
  }

  lemma ProductZero(a: nat, p: nat)
    requires p > 0
    ensures a * p == 0 <==> a == 0
  {}

  lemma ShiftDigit(p: nat, q: nat, c: nat, d: nat)
    ensures 10 * (p * q + c) + d == p * (10 * q) + (10 * c + d)
  {}

  // ---------- splitting and joining ----------

  /** `s.split(sep)` for a one-character separator: always at least one piece. */
  function Split(s: string, sep: char): (r: seq<string>)
    ensures |r| >= 1
    ensures forall i :: 0 <= i < |r| ==> sep !in r[i]
  {
    if s == [] then [[]]
    else
      var r := Split(s[1..], sep);
      if s[0] == sep then [[]] + r else [[s[0]] + r[0]] + r[1..]
  }

  function Join(parts: seq<string>, sep: char): string {
    if parts == [] then [] else if |parts| == 1 then parts[0]
    else parts[0] + [sep] + Join(parts[1..], sep)
  }

  lemma {:induction false} SplitWhole(a: string, sep: char)
    requires sep !in a
    ensures Split(a, sep) == [a]
  {
    if a != [] {
      assert forall c :: c in a[1..] ==> c in a;
      SplitWhole(a[1..], sep);
      assert [a[0]] + a[1..] == a;
    }
  }

  lemma {:induction false} SplitFirst(a: string, sep: char, b: string)
    requires sep !in a
    ensures Split(a + [sep] + b, sep) == [a] + Split(b, sep)
  {
    var s := a + [sep] + b;
    if a == [] {
      assert s[1..] == b;
    } else {
      assert s[1..] == a[1..] + [sep] + b;
      assert forall c :: c in a[1..] ==> c in a;
      SplitFirst(a[1..], sep, b);
      assert [a[0]] + a[1..] == a;
      assert ([a[1..]] + Split(b, sep))[1..] == Split(b, sep);
    }
  }

  /** Splitting undoes joining when no piece contains the separator. */
  lemma {:induction false} SplitJoin(parts: seq<string>, sep: char)
    requires parts != []
    requires forall i :: 0 <= i < |parts| ==> sep !in parts[i]
    ensures Split(Join(parts, sep), sep) == parts
  {
    if |parts| == 1 {
      SplitWhole(parts[0], sep);
    } else {
      SplitJoin(parts[1..], sep);
      SplitFirst(parts[0], sep, Join(parts[1..], sep));
      assert parts == [parts[0]] + parts[1..];
    }
  }
}
