/** Bit strings, most significant bit first, and the numbers they spell. */
module Bits {

  function Exp2(k: nat): (p: nat)
    ensures 0 < p
  {
    if k == 0 then 1 else 2 * Exp2(k - 1)
  }

  /** The low `width` bits of `value`, most significant first. */
  function BitsOf(value: nat, width: nat): (s: seq<bool>)
    ensures |s| == width
  {
    if width == 0 then [] else BitsOf(value / 2, width - 1) + [value % 2 == 1]
  }

  /** The number a bit string spells. */
  function BitsValue(s: seq<bool>): (v: nat)
    ensures v < Exp2(|s|)
  {
    if s == [] then 0 else 2 * BitsValue(s[..|s| - 1]) + (if s[|s| - 1] then 1 else 0)
  }

  lemma TopBits(s: seq<bool>, n: nat)
    requires n < |s|
    ensures BitsValue(s[..n + 1]) == 2 * BitsValue(s[..n]) + if s[n] then 1 else 0
  {
    assert s[..n + 1][..n] == s[..n];
  }

  function Weight(on: bool, w: nat): nat {
    if on then w else 0
  }

  lemma NextFour(s: seq<bool>, n: nat)
    requires n + 4 <= |s|
    ensures BitsValue(s[..n + 4])
      == 16 * BitsValue(s[..n]) + Weight(s[n], 8) + Weight(s[n + 1], 4) + Weight(s[n + 2], 2) + Weight(s[n + 3], 1)
  {
    hide BitsValue;
    TopBits(s, n);
    TopBits(s, n + 1);
    TopBits(s, n + 2);
    TopBits(s, n + 3);
  }

  lemma {:induction false} ReadBack(value: nat, width: nat)
    requires value < Exp2(width)
    ensures BitsValue(BitsOf(value, width)) == value
  {
    if width > 0 {
      ReadBack(value / 2, width - 1);
      assert BitsOf(value, width)[..width - 1] == BitsOf(value / 2, width - 1);
    }
  }

  lemma {:induction false} ValueInjective(s: seq<bool>, t: seq<bool>)
    requires |s| == |t| && BitsValue(s) == BitsValue(t)
    ensures s == t
  {
    if s != [] {
      var n := |s| - 1;
      ValueInjective(s[..n], t[..n]);
      assert s == s[..n] + [s[n]] && t == t[..n] + [t[n]];
    }
  }

  lemma {:induction false} AllFalse(s: seq<bool>)
    requires forall i :: 0 <= i < |s| ==> !s[i]
    ensures BitsValue(s) == 0
  {
    if s != [] { AllFalse(s[..|s| - 1]); }
  }

  /** v >> i. */
  function Shr(v: nat, i: nat): nat
    decreases i
  {
    if i == 0 then v else Shr(v / 2, i - 1)
  }

  /** Bit j of the string, counted from the top, is bit width-1-j of the number. */
  lemma {:induction false} BitsOfAt(value: nat, width: nat, j: nat)
    requires j < width
    ensures BitsOf(value, width)[j] == (Shr(value, width - 1 - j) % 2 == 1)
  {
    if j < width - 1 { BitsOfAt(value / 2, width - 1, j); }
  }

  function XorBits(s: seq<bool>, t: seq<bool>): (r: seq<bool>)
    requires |s| == |t|
    ensures |r| == |s| && forall i :: 0 <= i < |s| ==> r[i] == (s[i] != t[i])
  {
    seq(|s|, i requires 0 <= i < |s| => s[i] != t[i])
  }

  function Falses(n: nat): (s: seq<bool>)
    ensures |s| == n && forall i :: 0 <= i < n ==> !s[i]
  {
    seq(n, _ => false)
  }
}
