/** Bazel version comparison in configure.py: versions are packed into one integer through
    a zero-padded decimal string, and integers are compared. */
module Versions {
  import opened Options
  import opened Text

  /** `'%03d' % n` */
  function Pad3(n: nat): (s: string)
    ensures AllDigits(s) && ParseNat(s) == n
    ensures |s| >= 3 && (n < 1000 ==> |s| == 3)
  {
    var d := ToDecimal(n);
    if |d| == 1 then LeadingZeros("00", d); "00" + d
    else if |d| == 2 then LeadingZeros("0", d); "0" + d
    else ShortNumeral(n); d
  }

  lemma LeadingZeros(z: string, d: string)
    requires z == "0" || z == "00"
    requires AllDigits(d)
    ensures AllDigits(z + d) && ParseNat(z + d) == ParseNat(d)
  {
    assert "0"[..0] == [] && "00"[..1] == "0";
    assert ParseNat("0") == 0 && ParseNat("00") == 0;
    ParseConcat(z, d);
    assert 0 * Pow10(|d|) == 0;
  }

  lemma ShortNumeral(n: nat)
    ensures n < 1000 ==> |ToDecimal(n)| <= 3
  {
    if 10 <= n < 1000 {
      var m := n / 10;
      assert |ToDecimal(n)| == |ToDecimal(m)| + 1;
      if m >= 10 {
        assert |ToDecimal(m)| == |ToDecimal(m / 10)| + 1;
      }
    }
  }

  /** `''.join(['%03d' % v for v in vs])` */
  function Packed(vs: seq<nat>): (s: string)
    ensures AllDigits(s)
  {
    if vs == [] then [] else Packed(vs[..|vs| - 1]) + Pad3(vs[|vs| - 1])
  }

  /** `int` of the packed string, for at least one segment. */
  function Encode(vs: seq<nat>): nat {
    ParseNat(Packed(vs))
  }

  predicate IsSegment(piece: string) {
    piece != [] && AllDigits(piece)
  }

  predicate AllSegments(pieces: seq<string>) {
    forall i :: 0 <= i < |pieces| ==> IsSegment(pieces[i])
  }

  function NumbersOf(pieces: seq<string>): (vs: seq<nat>)
    requires AllSegments(pieces)
    ensures |vs| == |pieces| && forall i :: 0 <= i < |vs| ==> vs[i] == ParseNat(pieces[i])
  {
    seq(|pieces|, i requires 0 <= i < |pieces| => ParseNat(pieces[i]))
  }

  /** The pieces between dots after the suffix is cut, "X.Y" being completed to "X.Y.0". */
  function Pieces(version: string): seq<string> {
    var pieces := Split(Split(version, '-')[0], '.');
    if |pieces| == 2 then pieces + ["0"] else pieces
  }

  /** The version's segments; None when some piece is not a non-empty digit string. */
  function Segments(version: string): (r: Option<seq<nat>>)
    ensures r.Some? ==> r.value != []
  {
    if AllSegments(Pieces(version)) then Some(NumbersOf(Pieces(version))) else None
  }

  function ConvertVersionToInt(version: string): Option<nat> {
    var segments := Segments(version);
    if segments.None? then None else Some(Encode(segments.value))
  }

  // ---------- order ----------

  /** Every segment but the first has at most three digits. */
  predicate ThreeDigitTail(vs: seq<nat>) {
    forall i :: 1 <= i < |vs| ==> vs[i] < 1000
  }

  /** Lexicographic order of equally long segment lists, by the first difference. */
  ghost predicate LexLess(a: seq<nat>, b: seq<nat>)
    requires |a| == |b|
  {
    exists k :: 0 <= k < |a| && a[..k] == b[..k] && a[k] < b[k]
  }

  /** The positional value of segments as base-1000 digits, first segment unbounded. */
  function Value(vs: seq<nat>): nat {
    if vs == [] then 0 else 1000 * Value(vs[..|vs| - 1]) + vs[|vs| - 1]
  }

  lemma PackOne(s: string, n: nat)
    requires AllDigits(s) && n < 1000
    ensures ParseNat(s + Pad3(n)) == 1000 * ParseNat(s) + n
  {
    ParseConcat(s, Pad3(n));
    ThousandIsThreeDigits(ParseNat(s));
  }

  lemma ThousandIsThreeDigits(v: nat)
    ensures v * Pow10(3) == 1000 * v
  {
    assert Pow10(1) == 10 && Pow10(2) == 100 && Pow10(3) == 1000;
  }

  lemma {:induction false} EncodeIsValue(vs: seq<nat>)
    requires ThreeDigitTail(vs)
    ensures Encode(vs) == Value(vs)
  {
    if |vs| == 1 {
      assert Packed(vs[..0]) == [];
      assert Packed(vs) == Pad3(vs[0]);
    } else if vs != [] {
      var front, last := vs[..|vs| - 1], vs[|vs| - 1];
      EncodeIsValue(front);
      PackOne(Packed(front), last);
    }
  }

  lemma {:induction false} ValueOrder(a: seq<nat>, b: seq<nat>)
    requires |a| == |b| && ThreeDigitTail(a) && ThreeDigitTail(b)
    ensures Value(a) < Value(b) <==> LexLess(a, b)
    ensures Value(a) == Value(b) <==> a == b
  {
    if a != [] {
      var n := |a| - 1;
      var c, d := a[..n], b[..n];
      ValueOrder(c, d);
      LexLessLast(a, b);
      SplitLast(a, b);
      if n == 0 {
        assert c == d == [];
      } else {
        LastDigitOrder(Value(c), a[n], Value(d), b[n]);
      }
    }
  }

  lemma SplitLast(a: seq<nat>, b: seq<nat>)
    requires |a| == |b| > 0
    ensures var n := |a| - 1; a == b <==> a[..n] == b[..n] && a[n] == b[n]
  {
    var n := |a| - 1;
    assert a == a[..n] + [a[n]] && b == b[..n] + [b[n]];
  }

  lemma LastDigitOrder(x: nat, p: nat, y: nat, q: nat)
    requires p < 1000 && q < 1000
    ensures 1000 * x + p < 1000 * y + q <==> x < y || (x == y && p < q)
    ensures 1000 * x + p == 1000 * y + q <==> x == y && p == q
  {}

  lemma LexLessLast(a: seq<nat>, b: seq<nat>)
    requires |a| == |b| > 0
    ensures var n := |a| - 1;
      LexLess(a, b) <==> LexLess(a[..n], b[..n]) || (a[..n] == b[..n] && a[n] < b[n])
  {
    var n := |a| - 1;
    var c, d := a[..n], b[..n];
    assert forall k :: 0 <= k <= n ==> c[..k] == a[..k] && d[..k] == b[..k];
    if LexLess(c, d) {
      var k :| 0 <= k < |c| && c[..k] == d[..k] && c[k] < d[k];
      assert a[..k] == b[..k] && a[k] < b[k];
    }
    if LexLess(a, b) {
      var k :| 0 <= k < |a| && a[..k] == b[..k] && a[k] < b[k];
      if k < n {
        assert c[..k] == d[..k] && c[k] < d[k];
      }
    }
  }

  /** Packing preserves and reflects the version order, whatever the size of the first segment. */
  lemma EncodeOrder(a: seq<nat>, b: seq<nat>)
    requires |a| == |b| && ThreeDigitTail(a) && ThreeDigitTail(b)
    ensures Encode(a) < Encode(b) <==> LexLess(a, b)
    ensures Encode(a) == Encode(b) <==> a == b
  {
    EncodeIsValue(a);
    EncodeIsValue(b);
    ValueOrder(a, b);
  }

  /** The segment list of a given length, three-digit after the first, that a number stands for. */
  function Unpack(n: nat, len: nat): (vs: seq<nat>)
    requires len > 0
    ensures |vs| == len && ThreeDigitTail(vs) && Value(vs) == n
  {
    if len == 1 then [n] else
      var front := Unpack(n / 1000, len - 1);
      var vs := front + [n % 1000];
      assert vs[..|vs| - 1] == front;
      vs
  }

  ghost predicate Unambiguous(a: seq<nat>) {
    forall b: seq<nat> :: |b| == |a| && ThreeDigitTail(b) && Encode(a) == Encode(b) ==> a == b
  }

  /** A packed version can be told from every well-formed version of its length exactly when
      it is itself three-digit after the first segment: one longer segment always collides. */
  lemma UnambiguousIffThreeDigitTail(a: seq<nat>)
    requires a != []
    ensures Unambiguous(a) <==> ThreeDigitTail(a)
  {
    if ThreeDigitTail(a) {
      forall b: seq<nat> | |b| == |a| && ThreeDigitTail(b) && Encode(a) == Encode(b)
        ensures a == b
      {
        EncodeOrder(a, b);
      }
    } else {
      var b := Unpack(Encode(a), |a|);
      EncodeIsValue(b);
    }
  }

  // ---------- the check ----------

  datatype Outcome =
    | Accepted            // within range
    | AcceptedUnknown     // not recognised as a release: only a warning
    | TooOld              // exit(1)
    | TooNew              // exit(1)
    | TypeError           // a bound that does not parse is compared with an integer

  function Compare(lo: Option<nat>, cur: Option<nat>, hi: Option<nat>, ignoreMax: bool): Outcome {
    if cur.None? || cur.value == 0 then AcceptedUnknown
    else if lo.None? then TypeError
    else if cur.value < lo.value then TooOld
    else if hi.None? then TypeError
    else if cur.value > hi.value && !ignoreMax then TooNew
    else Accepted
  }

  function CheckBazelVersion(min: string, current: string, max: string, ignoreMax: bool): Outcome {
    Compare(ConvertVersionToInt(min), ConvertVersionToInt(current), ConvertVersionToInt(max), ignoreMax)
  }

  predicate AllZero(vs: seq<nat>) {
    forall i :: 0 <= i < |vs| ==> vs[i] == 0
  }

  lemma {:induction false} ValueZero(vs: seq<nat>)
    ensures Value(vs) == 0 <==> AllZero(vs)
  {
    if vs != [] {
      ValueZero(vs[..|vs| - 1]);
    }
  }

  /** One segment more, the same number: the first segment is carried over. */
  function Widen(a: seq<nat>): (r: seq<nat>)
    requires a != []
    ensures |r| == |a| + 1
  {
    [a[0] / 1000, a[0] % 1000] + a[1..]
  }

  /** Segments aligned at the right: zeros in front of a list that is too short. */
  function Aligned(a: seq<nat>, n: nat): (r: seq<nat>)
    requires 0 < |a| <= n
    ensures |r| == n
    decreases n - |a|
  {
    if |a| == n then a else Aligned(Widen(a), n)
  }

  lemma {:induction false} WidenKeepsValue(a: seq<nat>)
    requires a != []
    ensures Value(Widen(a)) == Value(a)
    ensures ThreeDigitTail(a) ==> ThreeDigitTail(Widen(a))
    ensures AllZero(Widen(a)) <==> AllZero(a)
  {
    var w, n := Widen(a), |a| - 1;
    ValueZero(w);
    ValueZero(a);
    if n == 0 {
      assert w[..1] == [a[0] / 1000] && w[..1][..0] == [] && a[..0] == [];
    } else {
      WidenKeepsValue(a[..n]);
      assert w[..n + 1] == Widen(a[..n]);
    }
  }

  lemma {:induction false} AlignedKeepsValue(a: seq<nat>, n: nat)
    requires 0 < |a| <= n && ThreeDigitTail(a)
    ensures ThreeDigitTail(Aligned(a, n)) && Value(Aligned(a, n)) == Value(a)
    decreases n - |a|
  {
    if |a| < n {
      WidenKeepsValue(a);
      AlignedKeepsValue(Widen(a), n);
    }
  }

  /** Aligning puts zeros in front of segments of at most three digits. */
  lemma {:induction false} AlignedIsZeroFilled(a: seq<nat>, n: nat)
    requires 0 < |a| <= n && a[0] < 1000
    ensures Aligned(a, n) == seq(n - |a|, _ => 0) + a
    decreases n - |a|
  {
    if |a| == n {
      assert seq(0, _ => 0) + a == a;
    } else {
      assert Widen(a) == [0] + a;
      AlignedIsZeroFilled(Widen(a), n);
      assert seq(n - |a| - 1, _ => 0) + ([0] + a) == seq(n - |a|, _ => 0) + a;
    }
  }

  /** Packing orders versions of any lengths by their segments aligned at the right. */
  lemma EncodeOrderAligned(a: seq<nat>, b: seq<nat>, n: nat)
    requires 0 < |a| <= n && 0 < |b| <= n && ThreeDigitTail(a) && ThreeDigitTail(b)
    ensures Encode(a) < Encode(b) <==> LexLess(Aligned(a, n), Aligned(b, n))
    ensures Encode(a) == Encode(b) <==> Aligned(a, n) == Aligned(b, n)
  {
    EncodeIsValue(a);
    EncodeIsValue(b);
    AlignedKeepsValue(a, n);
    AlignedKeepsValue(b, n);
    ValueOrder(Aligned(a, n), Aligned(b, n));
  }

  lemma EncodeSnoc(vs: seq<nat>)
    requires vs != []
    ensures var front, last := vs[..|vs| - 1], vs[|vs| - 1];
      Encode(vs) == Encode(front) * Pow10(|Pad3(last)|) + last
  {
    ParseConcat(Packed(vs[..|vs| - 1]), Pad3(vs[|vs| - 1]));
  }

  lemma EncodeZeroSnoc(vs: seq<nat>)
    requires vs != []
    ensures Encode(vs) == 0 <==> Encode(vs[..|vs| - 1]) == 0 && vs[|vs| - 1] == 0
  {
    ParseConcatZero(Packed(vs[..|vs| - 1]), Pad3(vs[|vs| - 1]));
  }

  lemma {:induction false} EncodeZero(vs: seq<nat>)
    ensures Encode(vs) == 0 <==> AllZero(vs)
  {
    if vs != [] {
      var front := vs[..|vs| - 1];
      EncodeZero(front);
      EncodeZeroSnoc(vs);
      AllZeroSnoc(vs);
    }
  }

  lemma AllZeroSnoc(vs: seq<nat>)
    requires vs != []
    ensures AllZero(vs) <==> AllZero(vs[..|vs| - 1]) && vs[|vs| - 1] == 0
  {
    assert vs == vs[..|vs| - 1] + [vs[|vs| - 1]];
  }

  /** What a version is compared as: the digits of its packed number in n groups of three, the first one open. */
  function Regrouped(a: seq<nat>, n: nat): (r: seq<nat>)
    requires n > 0
    ensures |r| == n && ThreeDigitTail(r) && Encode(r) == Encode(a)
  {
    var r := Unpack(Encode(a), n);
    EncodeIsValue(r);
    r
  }

  /** Three-digit segments stay what they are; any longer one spills into the segments before it. */
  lemma RegroupedExactIff(a: seq<nat>)
    requires a != []
    ensures Regrouped(a, |a|) == a <==> ThreeDigitTail(a)
  {
    if ThreeDigitTail(a) {
      EncodeOrder(a, Regrouped(a, |a|));
    }
  }

  lemma RegroupedIsAligned(a: seq<nat>, n: nat)
    requires 0 < |a| <= n && ThreeDigitTail(a)
    ensures Regrouped(a, n) == Aligned(a, n)
  {
    var r := Regrouped(a, n);
    EncodeIsValue(a);
    EncodeIsValue(r);
    AlignedKeepsValue(a, n);
    ValueOrder(r, Aligned(a, n));
  }

  /** For all bounds and versions that parse, the check decides the order of the regrouped segments. The only other
      acceptance is the version whose segments are all zero, which reads as "no release". */
  lemma CheckDecidesRange(min: string, current: string, max: string, ignoreMax: bool,
                          lo: seq<nat>, cur: seq<nat>, hi: seq<nat>, n: nat)
    requires Segments(min) == Some(lo) && Segments(current) == Some(cur) && Segments(max) == Some(hi) && n > 0
    ensures var r := CheckBazelVersion(min, current, max, ignoreMax);
      var (l, c, h) := (Regrouped(lo, n), Regrouped(cur, n), Regrouped(hi, n));
      && (r == AcceptedUnknown <==> AllZero(cur))
      && (r == TooOld <==> !AllZero(cur) && LexLess(c, l))
      && (r == TooNew <==> !AllZero(cur) && !LexLess(c, l) && LexLess(h, c) && !ignoreMax)
      && r != TypeError
  {
    assert ConvertVersionToInt(min) == Some(Encode(lo));
    assert ConvertVersionToInt(current) == Some(Encode(cur));
    assert ConvertVersionToInt(max) == Some(Encode(hi));
    CompareDecidesRange(lo, cur, hi, ignoreMax, n);
  }

  lemma CompareDecidesRange(lo: seq<nat>, cur: seq<nat>, hi: seq<nat>, ignoreMax: bool, n: nat)
    requires n > 0
    ensures var r := Compare(Some(Encode(lo)), Some(Encode(cur)), Some(Encode(hi)), ignoreMax);
      var (l, c, h) := (Regrouped(lo, n), Regrouped(cur, n), Regrouped(hi, n));
      && (r == AcceptedUnknown <==> AllZero(cur))
      && (r == TooOld <==> !AllZero(cur) && LexLess(c, l))
      && (r == TooNew <==> !AllZero(cur) && !LexLess(c, l) && LexLess(h, c) && !ignoreMax)
      && r != TypeError
  {
    EncodeOrderRegrouped(cur, lo, n);
    EncodeOrderRegrouped(hi, cur, n);
    EncodeZero(cur);
  }

  lemma EncodeOrderRegrouped(a: seq<nat>, b: seq<nat>, n: nat)
    requires n > 0
    ensures Encode(a) < Encode(b) <==> LexLess(Regrouped(a, n), Regrouped(b, n))
  {
    EncodeOrder(Regrouped(a, n), Regrouped(b, n));
  }

  /** Versions that do not parse: an unknown installed one is accepted whatever the bounds; a bound that does not parse
      is an error as soon as it is compared. */
  lemma UnparsedOutcomes(min: string, current: string, max: string, ignoreMax: bool)
    ensures Segments(current).None? ==> CheckBazelVersion(min, current, max, ignoreMax) == AcceptedUnknown
    ensures Segments(current).Some? && !AllZero(Segments(current).value) && Segments(min).None? ==>
      CheckBazelVersion(min, current, max, ignoreMax) == TypeError
    ensures Segments(current).Some? && !AllZero(Segments(current).value) && Segments(min).Some?
            && Segments(max).None? ==>
      CheckBazelVersion(min, current, max, ignoreMax)
      == if Encode(Segments(current).value) < Encode(Segments(min).value) then TooOld else TypeError
  {
    var lo, cur, hi := ConvertVersionToInt(min), ConvertVersionToInt(current), ConvertVersionToInt(max);
    if cur.Some? {
      EncodeZero(Segments(current).value);
    }
    CompareUnparsed(lo, cur, hi, ignoreMax);
  }

  lemma CompareUnparsed(lo: Option<nat>, cur: Option<nat>, hi: Option<nat>, ignoreMax: bool)
    ensures cur.None? ==> Compare(lo, cur, hi, ignoreMax) == AcceptedUnknown
    ensures cur.Some? && cur.value != 0 && lo.None? ==> Compare(lo, cur, hi, ignoreMax) == TypeError
    ensures cur.Some? && cur.value != 0 && lo.Some? && hi.None? ==>
      Compare(lo, cur, hi, ignoreMax) == if cur.value < lo.value then TooOld else TypeError
  {}

  /** With segments of at most three digits after the first it is the order of the segments aligned at the right, and
      for lists of equal length their own order. */
  lemma CheckDecidesVersionOrder(min: string, current: string, max: string, ignoreMax: bool,
                                 lo: seq<nat>, cur: seq<nat>, hi: seq<nat>, n: nat)
    requires Segments(min) == Some(lo) && Segments(current) == Some(cur) && Segments(max) == Some(hi)
    requires |lo| <= n && |cur| <= n && |hi| <= n
    requires ThreeDigitTail(lo) && ThreeDigitTail(cur) && ThreeDigitTail(hi)
    ensures var r := CheckBazelVersion(min, current, max, ignoreMax);
      var (l, c, h) := (Aligned(lo, n), Aligned(cur, n), Aligned(hi, n));
      && (r == AcceptedUnknown <==> AllZero(cur))
      && (r == TooOld <==> !AllZero(cur) && LexLess(c, l))
      && (r == TooNew <==> !AllZero(cur) && !LexLess(c, l) && LexLess(h, c) && !ignoreMax)
      && r != TypeError
  {
    CheckDecidesRange(min, current, max, ignoreMax, lo, cur, hi, n);
    RegroupedIsAligned(lo, n);
    RegroupedIsAligned(cur, n);
    RegroupedIsAligned(hi, n);
  }

  /** A long segment breaks the version order: 1.1000.0 is compared as 11.0.0 and found newer than 2.0.0. */
  lemma LongSegmentExample()
    ensures Regrouped([1, 1000, 0], 3) == [11, 0, 0]
    ensures LexLess([1, 1000, 0], [2, 0, 0]) && LexLess([2, 0, 0], Regrouped([1, 1000, 0], 3))
  {
    var a, b, c: seq<nat> := [1, 1000, 0], [11, 0, 0], [2, 0, 0];
    LongSegmentEncoded();
    EncodeIsValue(b);
    ThreeSegmentValue(b);
    EncodeOrder(b, Regrouped(a, 3));
    FirstDecides(a, c);
    FirstDecides(c, b);
  }

  lemma FirstDecides(a: seq<nat>, b: seq<nat>)
    requires |a| == |b| > 0 && a[0] < b[0]
    ensures LexLess(a, b)
  {
    assert a[..0] == b[..0];
  }

  lemma LongSegmentEncoded()
    ensures Encode([1, 1000, 0]) == 11000000
  {
    var a, b: seq<nat> := [1, 1000, 0], [1, 1000];
    assert a[..2] == b;
    LongPairEncoded();
    PackOne(Packed(b), 0);
  }

  lemma LongPairEncoded()
    ensures Encode([1, 1000]) == 11000
  {
    var b: seq<nat> := [1, 1000];
    assert b[..1] == [1];
    SingleEncoded(1);
    EncodeSnoc(b);
    ThousandHasFourDigits();
  }

  lemma ThousandHasFourDigits()
    ensures |Pad3(1000)| == 4 && Pow10(4) == 10000
  {
    assert |ToDecimal(1)| == 1 && |ToDecimal(10)| == 2 && |ToDecimal(100)| == 3 && |ToDecimal(1000)| == 4;
    ThousandIsThreeDigits(1);
  }

  /** So a version of one segment is compared as a patch number: 5 is too old for 0.26.1, and for any minimum with a
      segment before the last that is not zero. */
  lemma SingleSegmentTooOld(min: string, current: string, max: string, ignoreMax: bool, lo: seq<nat>, v: nat)
    requires Segments(min) == Some(lo) && Segments(current) == Some([v])
    requires !AllZero(lo[..|lo| - 1]) && 0 < v < 1000
    ensures CheckBazelVersion(min, current, max, ignoreMax) == TooOld
  {
    SingleEncoded(v);
    LongVersionIsLarge(lo);
    assert ConvertVersionToInt(min) == Some(Encode(lo)) && ConvertVersionToInt(current) == Some(Encode([v]));
  }

  lemma SingleEncoded(v: nat)
    ensures Encode([v]) == v
  {
    EncodeIsValue([v]);
    assert [v][..0] == [];
  }

  lemma LongVersionIsLarge(vs: seq<nat>)
    requires vs != [] && !AllZero(vs[..|vs| - 1])
    ensures Encode(vs) >= 1000
  {
    EncodeZero(vs[..|vs| - 1]);
    EncodeSnoc(vs);
    LongPower(|Pad3(vs[|vs| - 1])|, Encode(vs[..|vs| - 1]));
  }

  lemma {:induction false} LongPower(k: nat, a: nat)
    requires k >= 3 && a > 0
    ensures a * Pow10(k) >= 1000
  {
    if k == 3 {
      ThousandIsThreeDigits(a);
    } else {
      LongPower(k - 1, a);
      assert a * (10 * Pow10(k - 1)) == 10 * (a * Pow10(k - 1));
    }
  }

  lemma ThreeSegmentValue(a: seq<nat>)
    requires |a| == 3
    ensures Value(a) == 1000 * (1000 * a[0] + a[1]) + a[2]
  {
    assert a[..2][..1] == a[..1] && a[..1][..0] == [];
    assert Value(a[..1]) == a[0] && Value(a[..2]) == 1000 * Value(a[..1]) + a[1];
  }

  function Numerals(vs: seq<nat>): seq<string> {
    seq(|vs|, i requires 0 <= i < |vs| => ToDecimal(vs[i]))
  }

  lemma {:induction false} JoinAvoids(parts: seq<string>, sep: char, c: char)
    requires c != sep
    requires forall i :: 0 <= i < |parts| ==> c !in parts[i]
    ensures c !in Join(parts, sep)
  {
    if |parts| > 1 {
      JoinAvoids(parts[1..], sep, c);
    }
  }

  lemma NumeralsAvoid(vs: seq<nat>, c: char)
    requires !IsDigit(c)
    ensures forall i :: 0 <= i < |vs| ==> c !in Numerals(vs)[i]
  {
    forall i | 0 <= i < |vs| ensures c !in Numerals(vs)[i] {
      NumeralAvoids(vs[i], c);
    }
  }

  function Completed(vs: seq<nat>): seq<nat> {
    if |vs| == 2 then vs + [0] else vs
  }

  lemma SegmentsOfNumerals(version: string, vs: seq<nat>)
    requires Split(Split(version, '-')[0], '.') == Numerals(vs)
    ensures Segments(version) == Some(Completed(vs))
  {
    var pieces := Pieces(version);
    assert ParseNat("0") == 0 by { assert "0"[..0] == []; }
    assert |pieces| == |Completed(vs)|;
    forall i | 0 <= i < |pieces| ensures IsSegment(pieces[i]) && ParseNat(pieces[i]) == Completed(vs)[i] {
      assert i < |vs| ==> pieces[i] == ToDecimal(vs[i]);
    }
    assert NumbersOf(pieces) == Completed(vs);
  }

  /** Writing segments with dots, with or without a "-suffix", and reading them back gives the same
      segments, a two-segment version being completed with a zero. */
  lemma DottedFormRoundTrip(vs: seq<nat>, suffix: string)
    requires vs != []
    ensures Segments(Join(Numerals(vs), '.')) == Some(Completed(vs))
    ensures Segments(Join(Numerals(vs), '.') + ['-'] + suffix) == Some(Completed(vs))
  {
    var base := Join(Numerals(vs), '.');
    NumeralsAvoid(vs, '.');
    SplitJoin(Numerals(vs), '.');
    NumeralsAvoid(vs, '-');
    JoinAvoids(Numerals(vs), '.', '-');
    SplitWhole(base, '-');
    SegmentsOfNumerals(base, vs);
    SplitFirst(base, '-', suffix);
    SegmentsOfNumerals(base + ['-'] + suffix, vs);
  }

  lemma {:induction false} SplitKeepsChar(s: string, sep: char, c: char) returns (i: nat)
    requires c in s && c != sep
    ensures i < |Split(s, sep)| && c in Split(s, sep)[i]
  {
    var r := Split(s[1..], sep);
    if s[0] == c {
      assert Split(s, sep)[0] == [c] + r[0];
      i := 0;
    } else {
      assert s == [s[0]] + s[1..];
      var j := SplitKeepsChar(s[1..], sep, c);
      i := if s[0] == sep then j + 1 else j;
    }
  }

  lemma BadPieceRejected(version: string, pieces: seq<string>, i: nat)
    requires Split(Split(version, '-')[0], '.') == pieces && i < |pieces| && !IsSegment(pieces[i])
    ensures ConvertVersionToInt(version) == None
  {
    assert Pieces(version)[i] == pieces[i];
  }

  /** A version with any other character than digits and dots before its first dash has no number. */
  lemma ForeignCharacterRejected(base: string, suffix: string, c: char)
    requires '-' !in base && c in base && !IsDigit(c) && c != '.'
    ensures ConvertVersionToInt(base) == None && ConvertVersionToInt(base + ['-'] + suffix) == None
  {
    SplitWhole(base, '-');
    SplitFirst(base, '-', suffix);
    var pieces := Split(base, '.');
    var i := SplitKeepsChar(base, '.', c);
    var k :| 0 <= k < |pieces[i]| && pieces[i][k] == c;
    assert !IsSegment(pieces[i]);
    BadPieceRejected(base, pieces, i);
    BadPieceRejected(base + ['-'] + suffix, pieces, i);
  }

  /** Nor has one with an empty segment. */
  lemma EmptySegmentRejected(parts: seq<string>, i: nat, suffix: string)
    requires forall k :: 0 <= k < |parts| ==> '.' !in parts[k] && '-' !in parts[k]
    requires i < |parts| && parts[i] == ""
    ensures ConvertVersionToInt(Join(parts, '.')) == None
    ensures ConvertVersionToInt(Join(parts, '.') + ['-'] + suffix) == None
  {
    var base := Join(parts, '.');
    SplitJoin(parts, '.');
    JoinAvoids(parts, '.', '-');
    SplitWhole(base, '-');
    BadPieceRejected(base, parts, i);
    SplitFirst(base, '-', suffix);
    BadPieceRejected(base + ['-'] + suffix, parts, i);
  }
}
