/**
 The field GF(256) the QR symbol's error correction is computed in:
 polynomials over GF(2) modulo x^8 + x^4 + x^3 + x^2 + 1 (0x11D), with x (that is, 2)
 as generator. A byte is its eight bits.
 */
module Galois {
  import opened Sequences
  import opened Bits

  datatype Byte = Byte(b7: bool, b6: bool, b5: bool, b4: bool, b3: bool, b2: bool, b1: bool, b0: bool)

  const ZERO := Byte(false, false, false, false, false, false, false, false)
  const ONE := Byte(false, false, false, false, false, false, false, true)

  function ByteBits(b: Byte): (s: seq<bool>)
    ensures |s| == 8
  {
    [b.b7, b.b6, b.b5, b.b4, b.b3, b.b2, b.b1, b.b0]
  }

  function FromBits(s: seq<bool>): Byte
    requires |s| == 8
  {
    Byte(s[0], s[1], s[2], s[3], s[4], s[5], s[6], s[7])
  }

  function Value(b: Byte): (v: nat)
    ensures v < 256
  {
    assert Exp2(8) == 256;
    BitsValue(ByteBits(b))
  }

  /** The first bit named is worth 128, the last 1. */
  lemma ByteValue(b: Byte)
    ensures Value(b) == Weight(b.b7, 128) + Weight(b.b6, 64) + Weight(b.b5, 32) + Weight(b.b4, 16)
      + Weight(b.b3, 8) + Weight(b.b2, 4) + Weight(b.b1, 2) + Weight(b.b0, 1)
  {
    EightBits(ByteBits(b));
    hide BitsValue;
  }

  lemma EightBits(s: seq<bool>)
    requires |s| == 8
    ensures BitsValue(s) == Weight(s[0], 128) + Weight(s[1], 64) + Weight(s[2], 32) + Weight(s[3], 16)
      + Weight(s[4], 8) + Weight(s[5], 4) + Weight(s[6], 2) + Weight(s[7], 1)
  {
    hide BitsValue;
    AllFalse(s[..0]);
    NextFour(s, 0);
    NextFour(s, 4);
    assert s[..8] == s;
  }

  lemma ByteInjective(a: Byte, b: Byte)
    requires Value(a) == Value(b)
    ensures a == b
  {
    ValueInjective(ByteBits(a), ByteBits(b));
    assert FromBits(ByteBits(a)) == a && FromBits(ByteBits(b)) == b;
  }

  function Xor(a: Byte, b: Byte): Byte {
    Byte(a.b7 != b.b7, a.b6 != b.b6, a.b5 != b.b5, a.b4 != b.b4,
         a.b3 != b.b3, a.b2 != b.b2, a.b1 != b.b1, a.b0 != b.b0)
  }

  /** One left shift, reduced by 0x11D when bit 8 comes out set. */
  function Xtime(a: Byte): Byte {
    Byte(a.b6, a.b5, a.b4, a.b3 != a.b7, a.b2 != a.b7, a.b1 != a.b7, a.b0, a.b7)
  }

  /** 0x1D. */
  const REDUCTION := Byte(false, false, false, true, true, true, false, true)

  /** It doubles the number; what overflows comes back as 0x11D - 0x100, added without carry. */
  lemma XtimeDoubles(a: Byte)
    ensures Value(REDUCTION) == 0x11D - 0x100
    ensures Value(a) < 128 ==> Value(Xtime(a)) == 2 * Value(a)
    ensures Value(a) >= 128 ==> Value(Xor(Xtime(a), REDUCTION)) == 2 * Value(a) - 256
  {
    hide Value;
    ByteValue(REDUCTION);
    ByteValue(a);
    if a.b7 { Overflows(a); } else { Doubles(a); }
  }

  lemma Doubles(a: Byte)
    requires !a.b7
    ensures Value(Xtime(a)) == 2 * Value(a)
  {
    hide Value;
    ByteValue(a);
    ByteValue(Xtime(a));
  }

  lemma Overflows(a: Byte)
    requires a.b7
    ensures Value(Xor(Xtime(a), REDUCTION)) == 2 * Value(a) - 256
  {
    hide Value;
    ByteValue(a);
    assert Xor(Xtime(a), REDUCTION) == Byte(a.b6, a.b5, a.b4, a.b3, a.b2, a.b1, a.b0, false);
    ByteValue(Byte(a.b6, a.b5, a.b4, a.b3, a.b2, a.b1, a.b0, false));
  }

  /** One round of the schoolbook product: double what is there, then add `a` if the bit is set. */
  function Round(acc: Byte, on: bool, a: Byte): Byte {
    Xor(Xtime(acc), if on then a else ZERO)
  }

  /** The field product by the schoolbook method; the table product is proved against it. */
  function Times(a: Byte, b: Byte): Byte {
    Round(Round(Round(Round(Round(Round(Round(Round(ZERO,
      b.b7, a), b.b6, a), b.b5, a), b.b4, a), b.b3, a), b.b2, a), b.b1, a), b.b0, a)
  }

  /** The n-th power of the generator. */
  function Power(n: nat): Byte {
    if n == 0 then ONE else Xtime(Power(n - 1))
  }

  // ---- addition ----

  lemma XorComm(a: Byte, b: Byte)
    ensures Xor(a, b) == Xor(b, a)
  {}

  lemma XorAssoc(a: Byte, b: Byte, c: Byte)
    ensures Xor(Xor(a, b), c) == Xor(a, Xor(b, c))
  {}

  lemma XorZero(a: Byte)
    ensures Xor(a, a) == ZERO
    ensures Xor(a, ZERO) == a == Xor(ZERO, a)
  {}

  lemma XorCancel(a: Byte, b: Byte)
    requires Xor(a, b) == ZERO
    ensures a == b
  {
    hide Xor;
    XorAssoc(a, a, b);
    XorZero(a); XorZero(b);
  }

  lemma XorShuffle(a: Byte, b: Byte, c: Byte, d: Byte)
    ensures Xor(Xor(a, b), Xor(c, d)) == Xor(Xor(a, c), Xor(b, d))
  {
    hide Xor;
    calc {
      Xor(Xor(a, b), Xor(c, d));
      { XorAssoc(a, b, Xor(c, d)); }
      Xor(a, Xor(b, Xor(c, d)));
      { XorAssoc(b, c, d); XorComm(b, c); XorAssoc(c, b, d); }
      Xor(a, Xor(c, Xor(b, d)));
      { XorAssoc(a, c, Xor(b, d)); }
      Xor(Xor(a, c), Xor(b, d));
    }
  }

  lemma XtimeXor(a: Byte, b: Byte)
    ensures Xtime(Xor(a, b)) == Xor(Xtime(a), Xtime(b))
  {}

  lemma XtimeZero()
    ensures Xtime(ZERO) == ZERO
  {}

  // ---- multiplication is linear in its first factor ----

  lemma RoundXor(s: Byte, t: Byte, on: bool, a: Byte, c: Byte)
    ensures Round(Xor(s, t), on, Xor(a, c)) == Xor(Round(s, on, a), Round(t, on, c))
  {
    hide Xor, Xtime;
    XtimeXor(s, t);
    XorZero(ZERO);
    XorShuffle(Xtime(s), Xtime(t), if on then a else ZERO, if on then c else ZERO);
  }

  lemma RoundXtime(s: Byte, on: bool, a: Byte)
    ensures Round(Xtime(s), on, Xtime(a)) == Xtime(Round(s, on, a))
  {
    hide Xor, Xtime;
    XtimeZero();
    XtimeXor(Xtime(s), if on then a else ZERO);
  }

  lemma TimesXor(a: Byte, c: Byte, b: Byte)
    ensures Times(Xor(a, c), b) == Xor(Times(a, b), Times(c, b))
  {
    hide Xor, Xtime, Round;
    XorZero(ZERO);
    var s7, t7 := Round(ZERO, b.b7, a), Round(ZERO, b.b7, c);
    RoundXor(ZERO, ZERO, b.b7, a, c);
    var s6, t6 := Round(s7, b.b6, a), Round(t7, b.b6, c);
    RoundXor(s7, t7, b.b6, a, c);
    var s5, t5 := Round(s6, b.b5, a), Round(t6, b.b5, c);
    RoundXor(s6, t6, b.b5, a, c);
    var s4, t4 := Round(s5, b.b4, a), Round(t5, b.b4, c);
    RoundXor(s5, t5, b.b4, a, c);
    var s3, t3 := Round(s4, b.b3, a), Round(t4, b.b3, c);
    RoundXor(s4, t4, b.b3, a, c);
    var s2, t2 := Round(s3, b.b2, a), Round(t3, b.b2, c);
    RoundXor(s3, t3, b.b2, a, c);
    var s1, t1 := Round(s2, b.b1, a), Round(t2, b.b1, c);
    RoundXor(s2, t2, b.b1, a, c);
    RoundXor(s1, t1, b.b0, a, c);
  }

  lemma TimesXtime(a: Byte, b: Byte)
    ensures Times(Xtime(a), b) == Xtime(Times(a, b))
  {
    hide Xor, Xtime, Round;
    XtimeZero();
    var s7 := Round(ZERO, b.b7, a);
    RoundXtime(ZERO, b.b7, a);
    var s6 := Round(s7, b.b6, a);
    RoundXtime(s7, b.b6, a);
    var s5 := Round(s6, b.b5, a);
    RoundXtime(s6, b.b5, a);
    var s4 := Round(s5, b.b4, a);
    RoundXtime(s5, b.b4, a);
    var s3 := Round(s4, b.b3, a);
    RoundXtime(s4, b.b3, a);
    var s2 := Round(s3, b.b2, a);
    RoundXtime(s3, b.b2, a);
    var s1 := Round(s2, b.b1, a);
    RoundXtime(s2, b.b1, a);
    RoundXtime(s1, b.b0, a);
  }

  lemma TimesZero(a: Byte)
    ensures Times(ZERO, a) == ZERO == Times(a, ZERO)
  {
    assert forall on: bool :: Round(ZERO, on, ZERO) == ZERO;
    assert Round(ZERO, false, a) == ZERO;
    hide Round;
  }

  lemma RoundOne(t: Byte, on: bool)
    requires !t.b7
    ensures Round(t, on, ONE) == Byte(t.b6, t.b5, t.b4, t.b3, t.b2, t.b1, t.b0, on)
  {}

  /** One is neutral: the partial products shift b in, and nothing overflows before the eighth bit. */
  lemma OneTimes(b: Byte)
    ensures Times(ONE, b) == b
  {
    hide Round, Xor, Xtime;
    RoundOne(ZERO, b.b7);
    RoundOne(Byte(false, false, false, false, false, false, false, b.b7), b.b6);
    RoundOne(Byte(false, false, false, false, false, false, b.b7, b.b6), b.b5);
    RoundOne(Byte(false, false, false, false, false, b.b7, b.b6, b.b5), b.b4);
    RoundOne(Byte(false, false, false, false, b.b7, b.b6, b.b5, b.b4), b.b3);
    RoundOne(Byte(false, false, false, b.b7, b.b6, b.b5, b.b4, b.b3), b.b2);
    RoundOne(Byte(false, false, b.b7, b.b6, b.b5, b.b4, b.b3, b.b2), b.b1);
    RoundOne(Byte(false, b.b7, b.b6, b.b5, b.b4, b.b3, b.b2, b.b1), b.b0);
  }

  // ---- the generator has order 255 ----

  lemma {:induction false} PowerSum(i: nat, j: nat)
    ensures Times(Power(i), Power(j)) == Power(i + j)
  {
    hide Xtime, Times;
    if i == 0 {
      OneTimes(Power(j));
    } else {
      PowerSum(i - 1, j);
      TimesXtime(Power(i - 1), Power(j));
    }
  }

  lemma PowerOfZero()
    ensures Power(0) == ONE
  {}

  lemma PowerNext(i: nat)
    ensures Power(i + 1) == Xtime(Power(i))
  {}

  lemma {:induction false} PowerShift(i: nat, j: nat, k: nat)
    requires Power(i) == Power(j)
    ensures Power(i + k) == Power(j + k)
  {
    hide Xtime;
    if k > 0 { PowerShift(i, j, k - 1); }
  }

  const P15 := Byte(false, false, true, false, false, true, true, false)
  const P17 := Byte(true, false, false, true, true, false, false, false)
  const P34 := Byte(false, true, false, false, true, true, true, false)
  const P51 := Byte(false, false, false, false, true, false, true, false)
  const P85 := Byte(true, true, false, true, false, true, true, false)
  const P170 := Byte(true, true, false, true, false, true, true, true)

  lemma Power15And17()
    ensures Power(15) == P15 && Power(17) == P17
  {
    assert Power(4) == Byte(false, false, false, true, false, false, false, false);
    assert Power(8) == Byte(false, false, false, true, true, true, false, true);
    assert Power(12) == Byte(true, true, false, false, true, true, false, true);
    assert Power(15) == P15;
  }

  lemma Products()
    ensures Times(P17, P17) == P34 && Times(P34, P17) == P51 && Times(P51, P34) == P85
    ensures Times(P85, P85) == P170 && Times(P170, P85) == ONE
  {
  }

  /** 2^15, 2^51 and 2^85 are not one, and 2^255 is: no proper divisor of 255 is a period. */
  lemma LandmarkPowers()
    ensures Power(15) != ONE && Power(51) != ONE && Power(85) != ONE && Power(255) == ONE
  {
    Power15And17();
    Products();
    hide Times, Power;
    PowerSum(17, 17);
    PowerSum(34, 17);
    PowerSum(51, 34);
    PowerSum(85, 85);
    PowerSum(170, 85);
  }

  lemma {:induction false} PeriodMultiple(d: nat, q: nat)
    requires Power(d) == ONE
    ensures Power(q * d) == ONE
  {
    hide Power;
    PowerOfZero();
    if q > 0 {
      PeriodMultiple(d, q - 1);
      PowerShift((q - 1) * d, 0, d);
      assert (q - 1) * d + d == q * d;
    } else {
      assert q * d == 0;
    }
  }

  /** Euclid: two periods have a common divisor that is itself a period. */
  lemma {:induction false} CommonPeriod(a: nat, b: nat) returns (g: nat, p: nat, q: nat)
    requires 0 < a && 0 < b && Power(a) == ONE && Power(b) == ONE
    ensures a == g * p && b == g * q && Power(g) == ONE
    decreases a + b
  {
    hide Power;
    PowerOfZero();
    if a == b {
      g, p, q := a, 1, 1;
    } else if a > b {
      PowerShift(b, 0, a - b);
      g, p, q := CommonPeriod(a - b, b);
      p := p + q;
    } else {
      PowerShift(a, 0, b - a);
      g, p, q := CommonPeriod(a, b - a);
      q := p + q;
    }
  }

  /** A proper divisor of 255 divides 85, 51 or 15. */
  lemma ProperDivisor(g: nat, q: nat) returns (m: nat)
    requires g * q == 255 && q != 1
    ensures m * g == 85 || m * g == 51 || m * g == 15
  {
    if g <= 16 {
      assert g == 0 || g == 1 || g == 2 || g == 3 || g == 4 || g == 5 || g == 6 || g == 7 || g == 8 || g == 9
        || g == 10 || g == 11 || g == 12 || g == 13 || g == 14 || g == 15 || g == 16;
      m := if g == 1 || g == 5 || g == 17 then 85 / g else if g == 3 then 17 else 1;
    } else {
      assert q < 16;
      assert q == 0 || q == 1 || q == 2 || q == 3 || q == 4 || q == 5 || q == 6 || q == 7 || q == 8
        || q == 9 || q == 10 || q == 11 || q == 12 || q == 13 || q == 14 || q == 15;
      m := if q == 15 then 5 else 1;
    }
  }

  lemma OrderIs255(d: nat)
    requires 0 < d < 255
    ensures Power(d) != ONE
  {
    hide Power;
    LandmarkPowers();
    if Power(d) == ONE {
      var g, p, q := CommonPeriod(d, 255);
      var m := ProperDivisor(g, q);
      PeriodMultiple(g, m);
      assert false;
    }
  }

  lemma PowerInjective(i: nat, j: nat)
    requires i < j < 255
    ensures Power(i) != Power(j)
  {
    hide Power;
    PowerOfZero();
    if Power(i) == Power(j) {
      LandmarkPowers();
      PowerShift(i, j, 255 - i);
      PowerShift(255, 0, j - i);
      OrderIs255(j - i);
      assert false;
    }
  }

  lemma {:induction false} PowerNonzero(i: nat)
    ensures Power(i) != ZERO
  {
    if i > 0 { PowerNonzero(i - 1); }
  }

  lemma PowerPeriod(i: nat)
    ensures Power(i + 255) == Power(i)
  {
    hide Power;
    PowerOfZero();
    LandmarkPowers();
    PowerShift(255, 0, i);
  }

  function UpTo(n: nat): (r: set<int>)
    ensures |r| == n && forall v :: v in r <==> 1 <= v <= n
  {
    if n == 0 then {} else UpTo(n - 1) + {n}
  }

  /** Distinct numbers in 1..n, n of them, are all of 1..n. */
  lemma Pigeonhole(s: seq<int>, n: nat)
    requires |s| == n
    requires forall i :: 0 <= i < n ==> 1 <= s[i] <= n
    requires forall i, j :: 0 <= i < j < n ==> s[i] != s[j]
    ensures forall v :: 1 <= v <= n ==> v in s
  {
    var got := set v | v in s;
    CountDistinct(s, got);
    assert got <= UpTo(n);
    assert |UpTo(n) - got| == 0;
    forall v | 1 <= v <= n ensures v in s {
      assert v in UpTo(n);
    }
  }

  /** Every nonzero byte is a power of the generator. */
  lemma LogExists(a: Byte) returns (i: nat)
    requires a != ZERO
    ensures i < 255 && Power(i) == a
  {
    hide Power, Value;
    var s := seq(255, k requires 0 <= k < 255 => Value(Power(k)));
    ZeroValue();
    forall k | 0 <= k < 255 ensures 1 <= s[k] <= 255 {
      PowerNonzero(k);
      if s[k] == 0 { ByteInjective(Power(k), ZERO); }
    }
    forall j, k | 0 <= j < k < 255 ensures s[j] != s[k] {
      PowerInjective(j, k);
      if s[j] == s[k] { ByteInjective(Power(j), Power(k)); }
    }
    Pigeonhole(s, 255);
    if Value(a) == 0 { ByteInjective(a, ZERO); }
    assert Value(a) in s;
    i :| 0 <= i < 255 && s[i] == Value(a);
    ByteInjective(Power(i), a);
  }

  lemma ZeroValue()
    ensures Value(ZERO) == 0
  {
    AllFalse(ByteBits(ZERO));
  }

  // ---- the field laws, through logarithms ----

  lemma TimesComm(a: Byte, b: Byte)
    ensures Times(a, b) == Times(b, a)
  {
    hide Times;
    TimesZero(a); TimesZero(b);
    if a != ZERO && b != ZERO {
      var i := LogExists(a);
      var j := LogExists(b);
      PowerSum(i, j); PowerSum(j, i);
    }
  }

  lemma TimesAssoc(a: Byte, b: Byte, c: Byte)
    ensures Times(Times(a, b), c) == Times(a, Times(b, c))
  {
    hide Times;
    TimesZero(a); TimesZero(b); TimesZero(c);
    if a != ZERO && b != ZERO && c != ZERO {
      var i := LogExists(a);
      var j := LogExists(b);
      var k := LogExists(c);
      PowerSum(i, j); PowerSum(j, k);
      PowerSum(i + j, k); PowerSum(i, j + k);
    } else {
      TimesZero(Times(a, b)); TimesZero(Times(b, c));
    }
  }

  lemma NoZeroDivisors(a: Byte, b: Byte)
    requires Times(a, b) == ZERO
    ensures a == ZERO || b == ZERO
  {
    hide Times;
    if a != ZERO && b != ZERO {
      var i := LogExists(a);
      var j := LogExists(b);
      PowerSum(i, j);
      PowerNonzero(i + j);
      assert false;
    }
  }
}
