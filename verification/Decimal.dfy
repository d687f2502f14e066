/** Decimal printing of naturals as bytes, and how it orders. */
module Decimal {
  type Byte = b: int | 0 <= b < 256
  type Bytes = seq<Byte>

  const ZERO: Byte := 48
  const NINE: Byte := 57

  function Print(n: nat): (s: Bytes)
    ensures AllDigits(s) && |s| > 0
    decreases n
  {
    if n < 10 then [ZERO + n] else Print(n / 10) + [ZERO + n % 10]
  }

  predicate AllDigits(s: Bytes) {
    forall i :: 0 <= i < |s| ==> ZERO <= s[i] <= NINE
  }

  /** Digits with no leading zero, as Print writes them. */
  predicate Canonical(s: Bytes) {
    |s| > 0 && AllDigits(s) && (s[0] == ZERO ==> |s| == 1)
  }

  function Value(s: Bytes): (n: nat)
    requires AllDigits(s)
  {
    if s == [] then 0 else Value(s[..|s| - 1]) * 10 + (s[|s| - 1] - ZERO)
  }

  lemma {:induction false} ValueOfPrint(n: nat)
    ensures Value(Print(n)) == n && Canonical(Print(n))
    decreases n
  {
    if n >= 10 {
      ValueOfPrint(n / 10);
      var head := Print(n / 10);
      assert (head + [ZERO + n % 10])[..|head|] == head;
      assert |head| == 1 ==> head[..0] == [];
    } else {
      assert [ZERO + n][..0] == [];
    }
  }

  lemma {:induction false} PrintOfValue(s: Bytes)
    requires Canonical(s)
    ensures Print(Value(s)) == s
  {
    var n := |s| - 1;
    if n == 0 {
      assert s[..0] == [];
    } else {
      assert Canonical(s[..n]);
      PrintOfValue(s[..n]);
      PositiveHead(s[..n]);
      assert s == s[..n] + [s[n]];
    }
  }

  lemma {:induction false} PositiveHead(s: Bytes)
    requires |s| > 0 && AllDigits(s) && s[0] != ZERO
    ensures Value(s) > 0
  {
    if |s| > 1 {
      PositiveHead(s[..|s| - 1]);
    } else {
      assert s[..0] == [];
    }
  }

  lemma PrintInjective(m: nat, n: nat)
    requires Print(m) == Print(n)
    ensures m == n
  {
    ValueOfPrint(m);
    ValueOfPrint(n);
  }

  // ---------- order ----------

  function Pow10(n: nat): (p: nat)
    ensures p >= 1
  {
    if n == 0 then 1 else 10 * Pow10(n - 1)
  }

  lemma {:induction false} ValueByHead(s: Bytes)
    requires |s| > 0 && AllDigits(s)
    ensures Value(s) == (s[0] - ZERO) * Pow10(|s| - 1) + Value(s[1..])
  {
    var n := |s| - 1;
    if n == 0 {
      assert s[..0] == [] && s[1..] == [];
    } else {
      ValueByHead(s[..n]);
      assert s[..n][1..] == s[1..][..n - 1] && s[1..][n - 1] == s[n];
      Shift(s[0] - ZERO, Pow10(n - 1), Value(s[1..][..n - 1]));
    }
  }

  lemma Shift(d: nat, p: nat, v: nat)
    ensures (d * p + v) * 10 == d * (10 * p) + v * 10
  {
  }

  lemma {:induction false} ValueBelow(s: Bytes)
    requires AllDigits(s)
    ensures Value(s) < Pow10(|s|)
  {
    if s != [] {
      ValueBelow(s[..|s| - 1]);
    }
  }

  lemma ValueAtLeast(s: Bytes)
    requires |s| > 0 && AllDigits(s) && s[0] != ZERO
    ensures Value(s) >= Pow10(|s| - 1)
  {
    ValueByHead(s);
    MulAtLeast(s[0] - ZERO, Pow10(|s| - 1));
  }

  lemma MulAtLeast(a: nat, b: nat)
    requires a >= 1
    ensures a * b >= b
  {
  }

  lemma {:induction false} Pow10Grows(m: nat, n: nat)
    requires m <= n
    ensures Pow10(m) <= Pow10(n)
  {
    if m < n {
      Pow10Grows(m, n - 1);
    }
  }

  /** Byte order of two equally long strings. */
  predicate LexLess(a: Bytes, b: Bytes)
    requires |a| == |b|
  {
    a != [] && (a[0] < b[0] || (a[0] == b[0] && LexLess(a[1..], b[1..])))
  }

  /** The order the channel and the viceroy use on message IDs. */
  predicate IdLess(a: Bytes, b: Bytes) {
    if |a| != |b| then |a| < |b| else LexLess(a, b)
  }

  lemma DigitDecides(x: nat, y: nat, p: nat, v: nat, w: nat)
    requires x < y && v < p
    ensures x * p + v < y * p + w
  {
    assert (y - x) * p >= p by {
      MulAtLeast(y - x, p);
    }
  }

  lemma {:induction false} LexIsNumeric(a: Bytes, b: Bytes)
    requires |a| == |b| && AllDigits(a) && AllDigits(b)
    ensures LexLess(a, b) <==> Value(a) < Value(b)
    decreases |a|
  {
    if a == [] {
    } else {
      ValueByHead(a);
      ValueByHead(b);
      ValueBelow(a[1..]);
      ValueBelow(b[1..]);
      if a[0] < b[0] {
        DigitDecides(a[0] - ZERO, b[0] - ZERO, Pow10(|a| - 1), Value(a[1..]), Value(b[1..]));
      } else if b[0] < a[0] {
        DigitDecides(b[0] - ZERO, a[0] - ZERO, Pow10(|a| - 1), Value(b[1..]), Value(a[1..]));
      } else {
        LexIsNumeric(a[1..], b[1..]);
      }
    }
  }

  /** Length first, then bytes: on decimals without leading zeros that is the
      numeric order. */
  lemma IdLessIsNumeric(a: Bytes, b: Bytes)
    requires Canonical(a) && Canonical(b)
    ensures IdLess(a, b) <==> Value(a) < Value(b)
  {
    if |a| == |b| {
      LexIsNumeric(a, b);
    } else if |a| < |b| {
      ShorterIsSmaller(a, b);
    } else {
      ShorterIsSmaller(b, a);
    }
  }

  /** The digits without leading zeros. */
  function Stripped(s: Bytes): Bytes {
    if s != [] && s[0] == ZERO then Stripped(s[1..]) else s
  }

  lemma {:induction false} StrippedSameValue(s: Bytes)
    requires AllDigits(s)
    ensures AllDigits(Stripped(s)) && Value(Stripped(s)) == Value(s)
    ensures Stripped(s) != [] ==> Stripped(s)[0] != ZERO
  {
    if s != [] && s[0] == ZERO {
      StrippedSameValue(s[1..]);
      ValueByHead(s);
    }
  }

  lemma ShorterIsSmaller(s: Bytes, t: Bytes)
    requires AllDigits(s) && AllDigits(t) && |s| < |t| && t[0] != ZERO
    ensures Value(s) < Value(t)
  {
    ValueBelow(s);
    ValueAtLeast(t);
    Pow10Grows(|s|, |t| - 1);
  }

  /** On all digit strings, the order once leading zeros are gone is the numeric one. */
  lemma StrippedOrderIsNumeric(a: Bytes, b: Bytes)
    requires AllDigits(a) && AllDigits(b)
    ensures IdLess(Stripped(a), Stripped(b)) <==> Value(a) < Value(b)
  {
    StrippedSameValue(a);
    StrippedSameValue(b);
    var s, t := Stripped(a), Stripped(b);
    if |s| == |t| {
      LexIsNumeric(s, t);
    } else if |s| < |t| {
      ShorterIsSmaller(s, t);
    } else {
      ShorterIsSmaller(t, s);
    }
  }

  /** Leading zeros can break the order. */
  lemma LeadingZeroMisorders()
    ensures IdLess([NINE], [ZERO, ZERO]) && Value([NINE]) > Value([ZERO, ZERO])
  {
    assert [NINE][..0] == [] && [ZERO, ZERO][..1] == [ZERO] && [ZERO][..0] == [];
  }
}
