/**
 The format and version fields: BCH check bits over GF(2). A field is a bit string,
 most significant bit first, read as the coefficients of a polynomial.
 */
module QrFormat {
  import opened Bits

  datatype Level = LevelL | LevelM | LevelQ | LevelH

  /** The number of bits left once leading zeros are dropped. */
  function BitLength(s: seq<bool>): (n: nat)
    ensures n <= |s|
    ensures forall i :: 0 <= i < |s| - n ==> !s[i]
    ensures 0 < n ==> s[|s| - n]
  {
    if s == [] then 0 else if s[0] then |s| else BitLength(s[1..])
  }

  /** `gen`, moved so that its last bit stands `shift` places from the end of a `width`-bit string. */
  function Shifted(gen: seq<bool>, shift: nat, width: nat): (s: seq<bool>)
    requires |gen| + shift <= width
    ensures |s| == width
  {
    Falses(width - |gen| - shift) + gen + Falses(shift)
  }

  /** The sum of `gen` times x^k over the listed k: a polynomial multiple of `gen`. */
  ghost function Multiple(gen: seq<bool>, shifts: seq<nat>, width: nat): (s: seq<bool>)
    requires forall i :: 0 <= i < |shifts| ==> |gen| + shifts[i] <= width
    ensures |s| == width
  {
    if shifts == [] then Falses(width)
    else XorBits(Multiple(gen, shifts[1..], width), Shifted(gen, shifts[0], width))
  }

  ghost predicate IsMultiple(gen: seq<bool>, s: seq<bool>) {
    exists shifts: seq<nat> ::
      (forall i :: 0 <= i < |shifts| ==> |gen| + shifts[i] <= |s|) && s == Multiple(gen, shifts, |s|)
  }

  /**
   The field for `value`: `value` itself, then |gen| - 1 check bits that make the whole
   a multiple of the generator.
   */
  method Bch(value: seq<bool>, gen: seq<bool>) returns (field: seq<bool>)
    requires gen != [] && gen[0]
    ensures |field| == |value| + |gen| - 1 && field[..|value|] == value
    ensures IsMultiple(gen, field)
  {
    var degree := |gen| - 1;
    var width := |value| + degree;
    ghost var start := value + Falses(degree);
    var rem := value + Falses(degree);
    ghost var shifts: seq<nat> := [];
    while BitLength(rem) >= |gen|
      invariant |rem| == width
      invariant forall i :: 0 <= i < |shifts| ==> |gen| + shifts[i] <= width
      invariant XorBits(start, rem) == Multiple(gen, shifts, width)
      decreases BitLength(rem)
    {
      var shift := BitLength(rem) - |gen|;
      var next := XorBits(rem, Shifted(gen, shift, width));
      assert XorBits(start, next) == XorBits(XorBits(start, rem), Shifted(gen, shift, width));
      ghost var longer := [shift] + shifts;
      assert longer[1..] == shifts;
      Cleared(rem, gen, shift);
      rem := next;
      shifts := longer;
    }
    field := value + rem[|value|..];
    assert field == XorBits(start, rem);
  }

  /** Adding the aligned generator clears the leading bit, so the remainder gets shorter. */
  lemma Cleared(rem: seq<bool>, gen: seq<bool>, shift: nat)
    requires gen != [] && gen[0] && BitLength(rem) == |gen| + shift
    ensures BitLength(XorBits(rem, Shifted(gen, shift, |rem|))) < BitLength(rem)
  {
    hide Shifted, XorBits, BitLength;
    ShiftedTop(gen, shift, |rem|);
    LeadingPair(rem, Shifted(gen, shift, |rem|), |rem| - BitLength(rem));
  }

  /** Two strings with their first set bit at `top`: the sum starts later. */
  lemma LeadingPair(s: seq<bool>, t: seq<bool>, top: nat)
    requires |s| == |t| && top < |s| && s[top] && t[top]
    requires forall i :: 0 <= i < top ==> !s[i] && !t[i]
    ensures BitLength(XorBits(s, t)) < |s| - top
  {
    hide XorBits, BitLength;
    ShortBy(XorBits(s, t), top + 1);
  }

  lemma ShiftedTop(gen: seq<bool>, shift: nat, width: nat)
    requires gen != [] && gen[0] && |gen| + shift <= width
    ensures var s := Shifted(gen, shift, width); var top := width - |gen| - shift;
      s[top] && forall i :: 0 <= i < top ==> !s[i]
  {}

  lemma {:induction false} ShortBy(s: seq<bool>, k: nat)
    requires k <= |s| && forall i :: 0 <= i < k ==> !s[i]
    ensures BitLength(s) <= |s| - k
  {
    if k > 0 { ShortBy(s[1..], k - 1); }
  }

  /** M=00, L=01, H=10, Q=11. */
  function FormatBits(level: Level): (s: seq<bool>)
    ensures |s| == 2
  {
    match level
    case LevelL => [false, true]
    case LevelM => [false, false]
    case LevelQ => [true, true]
    case LevelH => [true, false]
  }

  /** 0x537: x^10 + x^8 + x^5 + x^4 + x^2 + x + 1. */
  const FORMAT_GEN := [true, false, true, false, false, true, true, false, true, true, true]
  /** 0x5412. */
  const FORMAT_MASK := [true, false, true, false, true, false, false, false, false, false, true, false, false, true, false]
  /** 0x1F25. */
  const VERSION_GEN := [true, true, true, true, true, false, false, true, false, false, true, false, true]

  method FormatInfo(level: Level, mask: nat) returns (field: seq<bool>)
    requires mask < 8
    ensures |field| == 15
    ensures ReadFormat(field) == (level, mask)
    ensures IsMultiple(FORMAT_GEN, XorBits(field, FORMAT_MASK))
  {
    var raw := Bch(FormatBits(level) + BitsOf(mask, 3), FORMAT_GEN);
    field := XorBits(raw, FORMAT_MASK);
    assert XorBits(field, FORMAT_MASK) == raw;
    FormatReads(raw, level, mask);
    hide ReadFormat, XorBits;
  }

  lemma FormatReads(raw: seq<bool>, level: Level, mask: nat)
    requires mask < 8 && |raw| == 15 && raw[..5] == FormatBits(level) + BitsOf(mask, 3)
    ensures ReadFormat(XorBits(raw, FORMAT_MASK)) == (level, mask)
  {
    hide BitsOf, BitsValue, Exp2;
    var field := XorBits(raw, FORMAT_MASK);
    assert field[0] == !raw[0] && field[1] == raw[1] && field[2] == !raw[2] && field[3] == raw[3] && field[4] == !raw[4];
    assert raw[..5][0] == raw[0] && raw[..5][1] == raw[1];
    assert raw[2..5] == raw[..5][2..] == BitsOf(mask, 3);
    assert [!field[2], field[3], !field[4]] == raw[2..5];
    MaskReads(mask);
  }

  lemma MaskReads(mask: nat)
    requires mask < 8
    ensures BitsValue(BitsOf(mask, 3)) == mask
  {
    assert Exp2(3) == 8;
    ReadBack(mask, 3);
  }

  /** What a scanner makes of the field: the level and the mask it names, once 101010000010010 is added. */
  function ReadFormat(field: seq<bool>): (Level, nat)
    requires |field| == 15
  {
    var level :=
      match (!field[0], field[1])
      case (false, false) => LevelM
      case (false, true) => LevelL
      case (true, false) => LevelH
      case (true, true) => LevelQ;
    (level, BitsValue([!field[2], field[3], !field[4]]))
  }

  /** The three constants, as numbers. */
  lemma Constants()
    ensures BitsValue(FORMAT_GEN) == 0x537 && BitsValue(FORMAT_MASK) == 0x5412 && BitsValue(VERSION_GEN) == 0x1F25
  {
    hide BitsValue;
    FormatGenerator();
    FormatMask();
    VersionGenerator();
  }

  lemma FormatGenerator()
    ensures BitsValue(FORMAT_GEN) == 0x537
  {
    var s := FORMAT_GEN;
    hide BitsValue;
    FirstBit(s);
    TopBits(s, 1);
    TopBits(s, 2);
    NextFour(s, 3);
    NextFour(s, 7);
    assert s[..11] == s;
  }

  lemma FormatMask()
    ensures BitsValue(FORMAT_MASK) == 0x5412
  {
    var s := FORMAT_MASK;
    hide BitsValue;
    FirstBit(s);
    TopBits(s, 1);
    TopBits(s, 2);
    NextFour(s, 3);
    NextFour(s, 7);
    NextFour(s, 11);
    assert s[..15] == s;
  }

  lemma VersionGenerator()
    ensures BitsValue(VERSION_GEN) == 0x1F25
  {
    var s := VERSION_GEN;
    hide BitsValue;
    FirstBit(s);
    NextFour(s, 1);
    NextFour(s, 5);
    NextFour(s, 9);
    assert s[..13] == s;
  }

  lemma FirstBit(s: seq<bool>)
    requires s != []
    ensures BitsValue(s[..1]) == if s[0] then 1 else 0
  {
    TopBits(s, 0);
    AllFalse(s[..0]);
  }

  method VersionInfo(version: nat) returns (field: seq<bool>)
    requires version < 64
    ensures |field| == 18 && BitsValue(field[..6]) == version
    ensures IsMultiple(VERSION_GEN, field)
  {
    field := Bch(BitsOf(version, 6), VERSION_GEN);
    assert Exp2(6) == 64;
    ReadBack(version, 6);
  }
}
