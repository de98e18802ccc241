/**
 Reed-Solomon error correction over GF(256): the log/antilog tables, the generator
 polynomial and the long division, with coefficients highest order first.
 */
module ReedSolomon {
  import opened Galois

  // ---- polynomials ----

  function Zeros(n: nat): (s: seq<Byte>)
    ensures |s| == n && forall i :: 0 <= i < n ==> s[i] == ZERO
  {
    seq(n, _ => ZERO)
  }

  function Scale(p: seq<Byte>, f: Byte): (s: seq<Byte>)
    ensures |s| == |p| && forall i :: 0 <= i < |p| ==> s[i] == Times(p[i], f)
  {
    seq(|p|, i requires 0 <= i < |p| => Times(p[i], f))
  }

  function Sum(p: seq<Byte>, q: seq<Byte>): (s: seq<Byte>)
    requires |p| == |q|
    ensures |s| == |p| && forall i :: 0 <= i < |p| ==> s[i] == Xor(p[i], q[i])
  {
    seq(|p|, i requires 0 <= i < |p| => Xor(p[i], q[i]))
  }

  /** The polynomial's value at x. */
  function Eval(p: seq<Byte>, x: Byte): Byte {
    if p == [] then ZERO else Xor(Times(Eval(p[..|p| - 1], x), x), p[|p| - 1])
  }

  lemma EvalSnoc(p: seq<Byte>, c: Byte, x: Byte)
    ensures Eval(p + [c], x) == Xor(Times(Eval(p, x), x), c)
  {
    assert (p + [c])[..|p|] == p;
  }

  lemma {:induction false} EvalSum(p: seq<Byte>, q: seq<Byte>, x: Byte)
    requires |p| == |q|
    ensures Eval(Sum(p, q), x) == Xor(Eval(p, x), Eval(q, x))
  {
    hide Xor, Times;
    XorZero(ZERO);
    if p != [] {
      var n := |p| - 1;
      EvalSum(p[..n], q[..n], x);
      assert Sum(p, q)[..n] == Sum(p[..n], q[..n]);
      TimesXor(Eval(p[..n], x), Eval(q[..n], x), x);
      XorShuffle(Times(Eval(p[..n], x), x), Times(Eval(q[..n], x), x), p[n], q[n]);
    }
  }

  lemma {:induction false} EvalScale(p: seq<Byte>, f: Byte, x: Byte)
    ensures Eval(Scale(p, f), x) == Times(Eval(p, x), f)
  {
    hide Xor, Times;
    TimesZero(f);
    if p != [] {
      var n := |p| - 1;
      var e := Eval(p[..n], x);
      EvalScale(p[..n], f, x);
      assert Scale(p, f)[..n] == Scale(p[..n], f);
      TimesAssoc(e, f, x); TimesComm(f, x); TimesAssoc(e, x, f);
      TimesXor(Times(e, x), p[n], f);
    }
  }

  lemma {:induction false} EvalLeadingZeros(k: nat, p: seq<Byte>, x: Byte)
    ensures Eval(Zeros(k) + p, x) == Eval(p, x)
    decreases |p|, k
  {
    hide Xor, Times;
    XorZero(ZERO);
    TimesZero(x);
    if p != [] {
      var n := |p| - 1;
      EvalLeadingZeros(k, p[..n], x);
      assert (Zeros(k) + p)[..k + n] == Zeros(k) + p[..n];
    } else if k > 0 {
      EvalLeadingZeros(k - 1, p, x);
      assert (Zeros(k) + p)[..k - 1] == Zeros(k - 1) + p;
    }
  }

  /** A root stays a root when the polynomial is multiplied by x^k. */
  lemma {:induction false} EvalTrailingZeros(p: seq<Byte>, k: nat, x: Byte)
    requires Eval(p, x) == ZERO
    ensures Eval(p + Zeros(k), x) == ZERO
  {
    hide Xor, Times;
    XorZero(ZERO);
    TimesZero(x);
    if k > 0 {
      EvalTrailingZeros(p, k - 1, x);
      assert (p + Zeros(k))[..|p| + k - 1] == p + Zeros(k - 1);
    } else {
      assert p + Zeros(0) == p;
    }
  }

  /** p times (x - r). */
  function TimesLinear(p: seq<Byte>, r: Byte): (s: seq<Byte>)
    ensures |s| == |p| + 1
  {
    Sum(p + [ZERO], [ZERO] + Scale(p, r))
  }

  lemma EvalTimesLinear(p: seq<Byte>, r: Byte, x: Byte)
    requires Eval(p, x) == ZERO || x == r
    ensures Eval(TimesLinear(p, r), x) == ZERO
  {
    hide Xor, Times;
    var e := Eval(p, x);
    EvalSum(p + [ZERO], [ZERO] + Scale(p, r), x);
    EvalSnoc(p, ZERO, x);
    assert [ZERO] == Zeros(1);
    EvalLeadingZeros(1, Scale(p, r), x);
    EvalScale(p, r, x);
    XorZero(Times(e, x));
    TimesZero(x); TimesZero(r);
    XorZero(ZERO);
  }

  // ---- the tables ----

  /** The package-level log and antilog tables, as `init` leaves them. */
  class Tables {
    const gfExp: array<Byte>
    const gfLog: array<int>

    ghost predicate Valid()
      reads gfExp, gfLog
    {
      && gfExp.Length == 512 && gfLog.Length == 256
      && (forall i :: 0 <= i < 512 ==> gfExp[i] == Power(i))
      && (forall i :: 0 <= i < 255 ==> gfLog[Value(Power(i))] == i)
    }

    constructor ()
      ensures Valid() && fresh(gfExp) && fresh(gfLog)
    {
      gfExp := new Byte[512](_ => ZERO);
      gfLog := new int[256](_ => 0);
      new;
      Fill(gfExp, gfLog);
    }

    static method Fill(exp: array<Byte>, log: array<int>)
      requires exp.Length == 512 && log.Length == 256
      modifies exp, log
      ensures forall i :: 0 <= i < 512 ==> exp[i] == Power(i)
      ensures forall i :: 0 <= i < 255 ==> log[Value(Power(i))] == i
    {
      hide Xtime, Value, Power;
      PowerOfZero();
      var x := ONE;
      for i := 0 to 255
        invariant x == Power(i)
        invariant forall j :: 0 <= j < i ==> exp[j] == Power(j)
        invariant forall j :: 0 <= j < i ==> log[Value(Power(j))] == j
      {
        exp[i] := x;
        forall j | 0 <= j < i ensures Value(Power(j)) != Value(x) {
          PowerInjective(j, i);
          if Value(Power(j)) == Value(x) { ByteInjective(Power(j), x); }
        }
        log[Value(x)] := i;
        PowerNext(i);
        x := Xtime(x);
      }
      for i := 255 to 512
        invariant forall j :: 0 <= j < i ==> exp[j] == Power(j)
        invariant forall j :: 0 <= j < 255 ==> log[Value(Power(j))] == j
      {
        PowerPeriod(i - 255);
        exp[i] := exp[i - 255];
      }
    }

    /** The table product is the field product. */
    method GfMul(a: Byte, b: Byte) returns (r: Byte)
      requires Valid()
      ensures r == Times(a, b)
    {
      hide Times, Value, Power;
      TimesZero(a); TimesZero(b);
      if a == ZERO || b == ZERO {
        return ZERO;
      }
      ghost var i := LogExists(a);
      ghost var j := LogExists(b);
      PowerSum(i, j);
      r := gfExp[gfLog[Value(a)] + gfLog[Value(b)]];
    }

    /** The degree-n generator: monic, with roots 2^0 .. 2^(n-1). */
    method GeneratorPoly(n: nat) returns (poly: seq<Byte>)
      requires Valid() && n <= 512
      ensures |poly| == n + 1 && poly[0] == ONE
      ensures forall i :: 0 <= i < n ==> Eval(poly, Power(i)) == ZERO
    {
      hide Times, Value, Xor, Power;
      poly := [ONE];
      for i := 0 to n
        invariant |poly| == i + 1 && poly[0] == ONE
        invariant forall k :: 0 <= k < i ==> Eval(poly, Power(k)) == ZERO
      {
        ghost var want := TimesLinear(poly, Power(i));
        var next := MulLinear(poly, i);
        forall k | 0 <= k <= i ensures Eval(want, Power(k)) == ZERO {
          EvalTimesLinear(poly, Power(i), Power(k));
        }
        poly := next;
      }
    }

    /** The inner loop: poly * (x + 2^i). */
    method MulLinear(poly: seq<Byte>, i: nat) returns (out: seq<Byte>)
      requires Valid() && i < 512
      ensures out == TimesLinear(poly, Power(i))
      ensures poly != [] ==> out[0] == poly[0]
    {
      hide Times, Value, Xor, Power;
      var next := new Byte[|poly| + 1](_ => ZERO);
      ghost var want := TimesLinear(poly, Power(i));
      for j := 0 to |poly|
        invariant forall k :: 0 <= k < j ==> next[k] == want[k]
        invariant next[j] == if j == 0 then ZERO else Times(poly[j - 1], Power(i))
        invariant forall k :: j < k < next.Length ==> next[k] == ZERO
      {
        var c := poly[j];
        XorComm(next[j], c);
        XorZero(c);
        next[j] := Xor(next[j], c);
        var m := GfMul(c, gfExp[i]);
        XorZero(m);
        next[j + 1] := Xor(next[j + 1], m);
      }
      XorZero(next[|poly|]);
      out := next[..];
      assert out == want;
      if poly != [] { XorZero(poly[0]); }
    }

    /** One round of the division: subtract factor * gen, aligned at position i. */
    method Subtract(remainder: array<Byte>, i: nat, gen: seq<Byte>, factor: Byte)
      requires Valid() && remainder != gfExp && i + |gen| <= remainder.Length
      modifies remainder
      ensures remainder[..] == old(Sum(remainder[..], Aligned(gen, factor, i, remainder.Length)))
    {
      hide Times, Value, Xor, Power;
      ghost var before := remainder[..];
      ghost var sub := Aligned(gen, factor, i, remainder.Length);
      forall k | 0 <= k < |before| ensures Xor(before[k], ZERO) == before[k] { XorZero(before[k]); }
      for j := 0 to |gen|
        invariant forall k :: 0 <= k < i + j ==> remainder[k] == Xor(before[k], sub[k])
        invariant forall k :: i + j <= k < remainder.Length ==> remainder[k] == before[k]
      {
        var m := GfMul(gen[j], factor);
        remainder[i + j] := Xor(remainder[i + j], m);
      }
    }

    /** The n error-correction codewords: data followed by them vanishes at 2^0 .. 2^(n-1). */
    method Encode(data: seq<Byte>, n: nat) returns (ec: seq<Byte>)
      requires Valid() && n <= 512
      ensures |ec| == n
      ensures IsCodeword(data + ec, n)
    {
      hide Times, Value, Xor, Power;
      var gen := GeneratorPoly(n);
      ghost var start := data + Zeros(n);
      var remainder := new Byte[|data| + n](i requires 0 <= i < |data| + n => if i < |data| then data[i] else ZERO);
      assert remainder[..] == start;

      for i := 0 to |data|
        invariant forall k :: 0 <= k < i ==> remainder[k] == ZERO
        invariant forall t :: 0 <= t < n ==> Eval(remainder[..], Power(t)) == Eval(start, Power(t))
      {
        var factor := remainder[i];
        if factor == ZERO {
          continue;
        }
        ghost var before := remainder[..];
        Subtract(remainder, i, gen, factor);
        OneTimes(factor);
        XorZero(factor);
        XorZero(ZERO);
        forall t | 0 <= t < n ensures Eval(remainder[..], Power(t)) == Eval(start, Power(t)) {
          SubtractMultiple(before, gen, factor, i, Power(t));
        }
      }
      ec := remainder[|data|..];
      assert remainder[..] == Zeros(|data|) + ec;
      forall t | 0 <= t < n ensures Eval(data + ec, Power(t)) == ZERO {
        RemainderCompletes(data, ec, Power(t));
      }
    }
  }

  ghost function Aligned(gen: seq<Byte>, f: Byte, i: nat, len: nat): (s: seq<Byte>)
    requires i + |gen| <= len
    ensures |s| == len
  {
    Zeros(i) + Scale(gen, f) + Zeros(len - i - |gen|)
  }

  lemma AlignedParts(gen: seq<Byte>, f: Byte, i: nat, len: nat)
    requires i + |gen| <= len
    ensures Aligned(gen, f, i, len) == Zeros(i) + Scale(gen, f) + Zeros(len - i - |gen|)
  {}

  lemma SubtractMultiple(before: seq<Byte>, gen: seq<Byte>, f: Byte, i: nat, x: Byte)
    requires Eval(gen, x) == ZERO && i + |gen| <= |before|
    ensures Eval(Sum(before, Aligned(gen, f, i, |before|)), x) == Eval(before, x)
  {
    hide Aligned, Zeros, Scale, Sum;
    var rest := |before| - i - |gen|;
    AlignedParts(gen, f, i, |before|);
    hide Xor, Times;
    EvalScale(gen, f, x);
    TimesZero(f);
    EvalLeadingZeros(i, Scale(gen, f), x);
    EvalTrailingZeros(Zeros(i) + Scale(gen, f), rest, x);
    EvalSum(before, Aligned(gen, f, i, |before|), x);
    XorZero(Eval(before, x));
  }

  lemma RemainderCompletes(data: seq<Byte>, ec: seq<Byte>, x: Byte)
    requires Eval(Zeros(|data|) + ec, x) == Eval(data + Zeros(|ec|), x)
    ensures Eval(data + ec, x) == ZERO
  {
    hide Xor, Times;
    var high, low := data + Zeros(|ec|), Zeros(|data|) + ec;
    forall k | 0 <= k < |data| + |ec| ensures Xor(high[k], low[k]) == (data + ec)[k] {
      XorZero(high[k]); XorZero(low[k]);
    }
    assert Sum(high, low) == data + ec;
    EvalSum(high, low, x);
    XorZero(Eval(high, x));
  }

  // ---- the code and its distance ----

  ghost predicate IsCodeword(w: seq<Byte>, n: nat) {
    forall t :: 0 <= t < n ==> Eval(w, Power(t)) == ZERO
  }

  /** A nonzero coefficient and the exponent it stands at. */
  datatype Term = Term(c: Byte, e: nat)

  ghost function Support(p: seq<Byte>): (s: seq<Term>)
    ensures |s| <= |p|
    ensures forall i :: 0 <= i < |s| ==> s[i].e < |p| && s[i].c != ZERO
    ensures forall i, j :: 0 <= i < j < |s| ==> s[i].e != s[j].e
  {
    if p == [] then []
    else if p[0] == ZERO then Support(p[1..])
    else Support(p[1..]) + [Term(p[0], |p| - 1)]
  }

  ghost function Syndrome(terms: seq<Term>, t: nat): Byte {
    if terms == [] then ZERO
    else
      var m := |terms| - 1;
      Xor(Syndrome(terms[..m], t), Times(terms[m].c, Power(terms[m].e * t)))
  }

  lemma {:induction false} EvalFront(c: Byte, p: seq<Byte>, t: nat)
    ensures Eval([c] + p, Power(t)) == Xor(Eval(p, Power(t)), Times(c, Power(|p| * t)))
  {
    hide Xor, Times, Power;
    var x := Power(t);
    if p == [] {
      assert [c] + p == [] + [c];
      EvalSnoc([], c, x);
      TimesZero(x);
      PowerOfZero();
      OneTimes(c); TimesComm(c, ONE);
    } else {
      var n := |p| - 1;
      var e, y := Eval(p[..n], x), Times(c, Power(n * t));
      EvalFront(c, p[..n], t);
      assert ([c] + p)[..|p|] == [c] + p[..n];
      TimesXor(e, y, x);
      TimesAssoc(c, Power(n * t), x);
      PowerSum(n * t, t);
      assert n * t + t == |p| * t;
      var ex, yx := Times(e, x), Times(c, Power(|p| * t));
      XorAssoc(ex, yx, p[n]); XorComm(yx, p[n]); XorAssoc(ex, p[n], yx);
    }
  }

  lemma {:induction false} SyndromeOfSupport(p: seq<Byte>, t: nat)
    ensures Syndrome(Support(p), t) == Eval(p, Power(t))
  {
    hide Xor, Times, Power;
    if p != [] {
      SyndromeOfSupport(p[1..], t);
      EvalFront(p[0], p[1..], t);
      assert p == [p[0]] + p[1..];
      if p[0] == ZERO {
        TimesZero(Power(|p[1..]| * t));
        XorZero(Eval(p[1..], Power(t)));
      } else {
        var s := Support(p);
        assert s[..|s| - 1] == Support(p[1..]);
      }
    }
  }

  ghost function Cancelled(terms: seq<Term>, a: Byte): (s: seq<Term>)
    ensures |s| == |terms|
    ensures forall i :: 0 <= i < |s| ==> s[i] == Term(Times(terms[i].c, Xor(Power(terms[i].e), a)), terms[i].e)
  {
    seq(|terms|, i requires 0 <= i < |terms| => Term(Times(terms[i].c, Xor(Power(terms[i].e), a)), terms[i].e))
  }

  lemma {:induction false} SyndromeOfCancelled(terms: seq<Term>, a: Byte, t: nat)
    ensures Syndrome(Cancelled(terms, a), t) == Xor(Syndrome(terms, t + 1), Times(Syndrome(terms, t), a))
  {
    hide Xor, Times, Power;
    TimesZero(a);
    XorZero(ZERO);
    if terms != [] {
      var m := |terms| - 1;
      var c, e := terms[m].c, terms[m].e;
      var s, s1 := Syndrome(terms[..m], t), Syndrome(terms[..m], t + 1);
      var y, y1 := Times(c, Power(e * t)), Times(c, Power(e * (t + 1)));
      SyndromeOfCancelled(terms[..m], a, t);
      assert Cancelled(terms, a)[..m] == Cancelled(terms[..m], a);
      CancelledTerm(c, e, a, t);
      TimesXor(s, y, a);
      XorShuffle(s1, Times(s, a), y1, Times(y, a));
    }
  }

  lemma CancelledTerm(c: Byte, e: nat, a: Byte, t: nat)
    ensures Times(Times(c, Xor(Power(e), a)), Power(e * t))
         == Xor(Times(c, Power(e * (t + 1))), Times(Times(c, Power(e * t)), a))
  {
    hide Xor, Times, Power;
    var pe, pt := Power(e), Power(e * t);
    TimesComm(c, Xor(pe, a));
    TimesXor(pe, a, c);
    TimesXor(Times(pe, c), Times(a, c), pt);
    TimesComm(pe, c);
    TimesAssoc(c, pe, pt);
    PowerSum(e, e * t);
    assert e + e * t == e * (t + 1);
    TimesComm(a, c);
    TimesAssoc(c, a, pt); TimesComm(a, pt); TimesAssoc(c, pt, a);
  }

  /** Vandermonde: at most n terms at distinct exponents below 255 cannot vanish at n consecutive powers. */
  lemma {:induction false} Vandermonde(terms: seq<Term>, n: nat)
    requires |terms| <= n
    requires forall i :: 0 <= i < |terms| ==> terms[i].e < 255
    requires forall i, j :: 0 <= i < j < |terms| ==> terms[i].e != terms[j].e
    requires forall t :: 0 <= t < n ==> Syndrome(terms, t) == ZERO
    ensures forall i :: 0 <= i < |terms| ==> terms[i].c == ZERO
    decreases |terms|
  {
    hide Xor, Times, Power;
    if terms != [] {
      var m := |terms| - 1;
      var a := Power(terms[m].e);
      var rest := Cancelled(terms, a)[..m];
      forall t | 0 <= t < n - 1 ensures Syndrome(rest, t) == ZERO {
        SyndromeOfCancelled(terms, a, t);
        TimesZero(a);
        XorZero(ZERO);
        var all := Cancelled(terms, a);
        XorZero(a);
        TimesZero(terms[m].c);
        TimesZero(Power(terms[m].e * t));
        XorZero(Syndrome(rest, t));
      }
      Vandermonde(rest, n - 1);
      forall i | 0 <= i < m ensures terms[i].c == ZERO {
        assert rest[i].c == ZERO;
        var d := Xor(Power(terms[i].e), a);
        NoZeroDivisors(terms[i].c, d);
        if d == ZERO {
          XorCancel(Power(terms[i].e), a);
          if terms[i].e < terms[m].e { PowerInjective(terms[i].e, terms[m].e); }
          else { PowerInjective(terms[m].e, terms[i].e); }
        }
      }
      ZeroTerms(terms[..m], 0);
      XorZero(Times(terms[m].c, Power(terms[m].e * 0)));
      assert Syndrome(terms, 0) == ZERO;
      PowerNonzero(terms[m].e * 0);
      NoZeroDivisors(terms[m].c, Power(terms[m].e * 0));
    }
  }

  lemma {:induction false} ZeroTerms(terms: seq<Term>, t: nat)
    requires forall i :: 0 <= i < |terms| ==> terms[i].c == ZERO
    ensures Syndrome(terms, t) == ZERO
  {
    hide Xor, Times, Power;
    XorZero(ZERO);
    if terms != [] {
      var m := |terms| - 1;
      ZeroTerms(terms[..m], t);
      TimesZero(Power(terms[m].e * t));
    }
  }

  /** How many positions two words of one length differ in. */
  ghost function Distance(u: seq<Byte>, v: seq<Byte>): nat
    requires |u| == |v|
  {
    |Support(Sum(u, v))|
  }

  /** The code corrects what it is meant to: distinct codewords of at most 255 bytes differ in more than n positions. */
  lemma CodeDistance(u: seq<Byte>, v: seq<Byte>, n: nat)
    requires |u| == |v| <= 255 && u != v
    requires IsCodeword(u, n) && IsCodeword(v, n)
    ensures Distance(u, v) > n
  {
    hide Xor, Times, Power;
    var d := Sum(u, v);
    forall t | 0 <= t < n ensures Syndrome(Support(d), t) == ZERO {
      SyndromeOfSupport(d, t);
      EvalSum(u, v, Power(t));
      XorZero(ZERO);
    }
    if |Support(d)| <= n {
      Vandermonde(Support(d), n);
      ZeroSupport(d);
      forall i | 0 <= i < |u| ensures u[i] == v[i] { XorCancel(u[i], v[i]); }
    }
  }

  lemma SupportHead(p: seq<Byte>)
    requires p != [] && p[0] != ZERO
    ensures Term(p[0], |p| - 1) in Support(p)
  {
    var s := Support(p);
    assert s[|s| - 1] == Term(p[0], |p| - 1);
  }

  lemma {:induction false} ZeroSupport(p: seq<Byte>)
    requires forall i :: 0 <= i < |Support(p)| ==> Support(p)[i].c == ZERO
    ensures forall i :: 0 <= i < |p| ==> p[i] == ZERO
  {
    if p != [] {
      if p[0] == ZERO {
        assert Support(p) == Support(p[1..]);
        ZeroSupport(p[1..]);
      } else {
        SupportHead(p);
      }
    }
  }

  /** The error-correction codewords are determined by the data: no other n bytes complete it. */
  lemma EcUnique(data: seq<Byte>, ec: seq<Byte>, ec': seq<Byte>, n: nat)
    requires |ec| == |ec'| == n && |data| + n <= 255
    requires IsCodeword(data + ec, n) && IsCodeword(data + ec', n)
    ensures ec == ec'
  {
    var u, v := data + ec, data + ec';
    if u != v {
      CodeDistance(u, v, n);
      forall i | 0 <= i < |data| ensures Sum(u, v)[i] == ZERO { XorZero(u[i]); }
      SupportLow(Sum(u, v), |data|);
    }
    assert ec == u[|data|..] && ec' == v[|data|..];
  }

  lemma {:induction false} SupportLow(p: seq<Byte>, k: nat)
    requires k <= |p| && forall i :: 0 <= i < k ==> p[i] == ZERO
    ensures |Support(p)| <= |p| - k
  {
    if k > 0 { SupportLow(p[1..], k - 1); }
  }
}
