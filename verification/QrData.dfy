/** Versions and capacities, the bit buffer, and the data codewords with their header and padding. */
module QrData {
  import opened Arithmetic
  import opened Options
  import opened Sequences
  import opened Bits
  import opened Galois
  import opened QrFormat

  datatype BlockSpec = BlockSpec(ecPerBlock: nat, group1: nat, data1: nat, group2: nat, data2: nat) {
    function DataCodewords(): nat { group1 * data1 + group2 * data2 }
    function Blocks(): nat { group1 + group2 }
    function TotalCodewords(): nat { DataCodewords() + Blocks() * ecPerBlock }
  }

  /** The block table, versions 1 to 10. */
  function Specs(version: nat, level: Level): BlockSpec
    requires 1 <= version <= 10
  {
    match level
    case LevelL =>
      if version == 1 then BlockSpec(7, 1, 19, 0, 0) else if version == 2 then BlockSpec(10, 1, 34, 0, 0)
      else if version == 3 then BlockSpec(15, 1, 55, 0, 0) else if version == 4 then BlockSpec(20, 1, 80, 0, 0)
      else if version == 5 then BlockSpec(26, 1, 108, 0, 0) else if version == 6 then BlockSpec(18, 2, 68, 0, 0)
      else if version == 7 then BlockSpec(20, 2, 78, 0, 0) else if version == 8 then BlockSpec(24, 2, 97, 0, 0)
      else if version == 9 then BlockSpec(30, 2, 116, 0, 0) else BlockSpec(18, 2, 68, 2, 69)
    case LevelM =>
      if version == 1 then BlockSpec(10, 1, 16, 0, 0) else if version == 2 then BlockSpec(16, 1, 28, 0, 0)
      else if version == 3 then BlockSpec(26, 1, 44, 0, 0) else if version == 4 then BlockSpec(18, 2, 32, 0, 0)
      else if version == 5 then BlockSpec(24, 2, 43, 0, 0) else if version == 6 then BlockSpec(16, 4, 27, 0, 0)
      else if version == 7 then BlockSpec(18, 4, 31, 0, 0) else if version == 8 then BlockSpec(22, 2, 38, 2, 39)
      else if version == 9 then BlockSpec(22, 3, 36, 2, 37) else BlockSpec(26, 4, 43, 1, 44)
    case LevelQ =>
      if version == 1 then BlockSpec(13, 1, 13, 0, 0) else if version == 2 then BlockSpec(22, 1, 22, 0, 0)
      else if version == 3 then BlockSpec(18, 2, 17, 0, 0) else if version == 4 then BlockSpec(26, 2, 24, 0, 0)
      else if version == 5 then BlockSpec(18, 2, 15, 2, 16) else if version == 6 then BlockSpec(24, 4, 19, 0, 0)
      else if version == 7 then BlockSpec(18, 2, 14, 4, 15) else if version == 8 then BlockSpec(22, 4, 18, 2, 19)
      else if version == 9 then BlockSpec(20, 4, 16, 4, 17) else BlockSpec(24, 6, 19, 2, 20)
    case LevelH =>
      if version == 1 then BlockSpec(17, 1, 9, 0, 0) else if version == 2 then BlockSpec(28, 1, 16, 0, 0)
      else if version == 3 then BlockSpec(22, 2, 13, 0, 0) else if version == 4 then BlockSpec(16, 4, 9, 0, 0)
      else if version == 5 then BlockSpec(22, 2, 11, 2, 12) else if version == 6 then BlockSpec(28, 4, 15, 0, 0)
      else if version == 7 then BlockSpec(26, 4, 13, 1, 14) else if version == 8 then BlockSpec(26, 4, 14, 2, 15)
      else if version == 9 then BlockSpec(24, 4, 12, 4, 13) else BlockSpec(28, 6, 15, 2, 16)
  }

  /** Width of the character-count field. */
  function CountBits(version: nat): nat {
    if version < 10 then 8 else 16
  }

  predicate Fits(n: nat, version: nat, level: Level)
    requires 1 <= version <= 10
  {
    4 + CountBits(version) + 8 * n <= Specs(version, level).DataCodewords() * 8
  }

  /** The smallest version that holds n bytes; None is ErrTooLong. */
  method ChooseVersion(n: nat, level: Level) returns (r: Option<nat>)
    ensures r.Some? ==> 1 <= r.value <= 10 && Fits(n, r.value, level)
    ensures r.Some? ==> forall v :: 1 <= v < r.value ==> !Fits(n, v, level)
    ensures r.None? ==> forall v :: 1 <= v <= 10 ==> !Fits(n, v, level)
  {
    for v := 1 to 11
      invariant forall u :: 1 <= u < v ==> !Fits(n, u, level)
    {
      var need := 4 + CountBits(v) + 8 * n;
      if need <= Specs(v, level).DataCodewords() * 8 {
        return Some(v);
      }
    }
    return None;
  }

  /** What fits can also be counted: the length always fits its field. */
  lemma LengthFits(n: nat, version: nat, level: Level)
    requires 1 <= version <= 10 && Fits(n, version, level)
    ensures n < Exp2(CountBits(version))
  {
    assert Exp2(8) == 256;
    assert Exp2(16) == 65536;
  }

  // ---- the bit buffer ----

  /** The bits of a byte string, in order. */
  function Spell(bytes: seq<Byte>): (s: seq<bool>)
    ensures |s| == 8 * |bytes|
  {
    if bytes == [] then [] else Spell(bytes[..|bytes| - 1]) + ByteBits(bytes[|bytes| - 1])
  }

  lemma SpellSnoc(a: seq<Byte>, x: Byte)
    ensures Spell(a + [x]) == Spell(a) + ByteBits(x)
  {
    hide ByteBits;
    assert (a + [x])[..|a|] == a;
  }

  lemma {:induction false} SpellConcat(a: seq<Byte>, b: seq<Byte>)
    ensures Spell(a + b) == Spell(a) + Spell(b)
  {
    if b == [] {
      assert a + b == a;
    } else {
      var n := |b| - 1;
      var start, last := b[..n], b[n];
      assert b == start + [last];
      SpellSnoc(a + start, last);
      SpellSnoc(start, last);
      SpellConcat(a, start);
      hide Spell, ByteBits;
      Assoc(a, start, [last]);
      Assoc(Spell(a), Spell(start), ByteBits(last));
    }
  }

  /** Bit k of a byte string. */
  function BitAt(bytes: seq<Byte>, k: nat): bool
    requires k < 8 * |bytes|
  {
    ByteBits(bytes[k / 8])[k % 8]
  }

  lemma {:induction false} SpellAt(bytes: seq<Byte>, k: nat)
    requires k < 8 * |bytes|
    ensures Spell(bytes)[k] == BitAt(bytes, k)
  {
    hide ByteBits;
    var n := |bytes| - 1;
    if k < 8 * n { SpellAt(bytes[..n], k); }
  }

  lemma {:induction false} SpellWindow(bytes: seq<Byte>, i: nat)
    requires i < |bytes|
    ensures Spell(bytes)[8 * i..8 * i + 8] == ByteBits(bytes[i])
  {
    hide ByteBits;
    var n := |bytes| - 1;
    if i < n {
      SpellWindow(bytes[..n], i);
      assert Spell(bytes)[8 * i..8 * i + 8] == Spell(bytes[..n])[8 * i..8 * i + 8];
    }
  }

  lemma BitsOfByte(b: Byte)
    ensures FromBits(ByteBits(b)) == b
  {}

  lemma SpellInjective(a: seq<Byte>, b: seq<Byte>)
    requires Spell(a) == Spell(b)
    ensures a == b
  {
    hide ByteBits, FromBits;
    forall k | 0 <= k < |a| ensures a[k] == b[k] {
      SpellWindow(a, k); SpellWindow(b, k);
      BitsOfByte(a[k]); BitsOfByte(b[k]);
    }
  }

  /** b |= 1 << uint(7-j) */
  function SetBit(b: Byte, j: nat): Byte
    requires j < 8
  {
    FromBits(ByteBits(b)[j := true])
  }

  class BitBuffer {
    var bits: seq<bool>

    constructor ()
      ensures bits == []
    {
      bits := [];
    }

    method Append(value: nat, width: nat)
      modifies this
      ensures bits == old(bits) + BitsOf(value, width)
    {
      var i := width - 1;
      while i >= 0
        invariant -1 <= i < width
        invariant bits == old(bits) + BitsOf(value, width)[..width - 1 - i]
      {
        BitsOfAt(value, width, width - 1 - i);
        bits := bits + [Shr(value, i) % 2 == 1];
        i := i - 1;
      }
    }

    method AppendByte(b: Byte)
      modifies this
      ensures bits == old(bits) + ByteBits(b)
    {
      ValueBits(b);
      Append(Value(b), 8);
    }

    method Bytes() returns (out: seq<Byte>)
      requires |bits| % 8 == 0
      ensures Spell(out) == bits
    {
      hide SetBit, BitAt;
      var buf := new Byte[|bits| / 8](_ => ZERO);
      forall k | 0 <= k < |bits| ensures !BitAt(buf[..], k) { BlankBit(buf[..], k); }
      for i := 0 to |bits|
        invariant forall k :: 0 <= k < |bits| ==> BitAt(buf[..], k) == (k < i && bits[k])
      {
        if bits[i] {
          ghost var before := buf[..];
          buf[i / 8] := SetBit(buf[i / 8], i % 8);
          assert buf[..] == before[i / 8 := SetBit(before[i / 8], i % 8)];
          forall k | 0 <= k < |bits| ensures BitAt(buf[..], k) == (k == i || BitAt(before, k)) {
            OneMoreBit(before, i, k);
          }
        }
      }
      out := buf[..];
      forall k | 0 <= k < |bits| ensures Spell(out)[k] == bits[k] { SpellAt(out, k); }
    }
  }

  lemma BlankBit(bytes: seq<Byte>, k: nat)
    requires k < 8 * |bytes| && bytes[k / 8] == ZERO
    ensures !BitAt(bytes, k)
  {}

  lemma OneMoreBit(bytes: seq<Byte>, i: nat, k: nat)
    requires i < 8 * |bytes| && k < 8 * |bytes|
    ensures BitAt(bytes[i / 8 := SetBit(bytes[i / 8], i % 8)], k) == (k == i || BitAt(bytes, k))
  {
    hide ByteBits, FromBits;
    BitsFromBits(ByteBits(bytes[i / 8])[i % 8 := true]);
    if k / 8 == i / 8 && k % 8 == i % 8 { assert k == i; }
  }

  lemma BitsFromBits(s: seq<bool>)
    requires |s| == 8
    ensures ByteBits(FromBits(s)) == s
  {}

  lemma ValueBits(b: Byte)
    ensures BitsOf(Value(b), 8) == ByteBits(b)
  {
    assert Exp2(8) == 256;
    ReadBack(Value(b), 8);
    ValueInjective(BitsOf(Value(b), 8), ByteBits(b));
  }

  // ---- data codewords ----

  const MODE := [false, true, false, false]
  const PAD0 := Byte(true, true, true, false, true, true, false, false)
  const PAD1 := Byte(false, false, false, true, false, false, false, true)

  function PadBytes(n: nat): (s: seq<Byte>)
    ensures |s| == n
  {
    seq(n, i => if i % 2 == 0 then PAD0 else PAD1)
  }

  function Header(data: seq<Byte>, version: nat): seq<bool> {
    MODE + BitsOf(|data|, CountBits(version)) + Spell(data)
  }

  /** Byte mode, the length, the bytes, four terminator bits, alternating pad bytes: nothing else. */
  ghost predicate IsEncoding(out: seq<Byte>, data: seq<Byte>, version: nat, spec: BlockSpec) {
    && |out| == spec.DataCodewords()
    && exists pads: nat :: Spell(out) == Header(data, version) + Falses(4) + Spell(PadBytes(pads))
  }

  method EncodeData(data: seq<Byte>, version: nat, spec: BlockSpec) returns (out: seq<Byte>)
    requires 4 + CountBits(version) + 8 * |data| <= spec.DataCodewords() * 8
    ensures IsEncoding(out, data, version, spec)
    ensures var n := |data| + if version <= 9 then 2 else 3;
      n <= |out| && forall i :: n <= i < |out| ==> Value(out[i]) == if (i - n) % 2 == 0 then 0xEC else 0x11
  {
    hide Spell, ByteBits, BitsOf, TerminatorLength, Value;
    var buf := new BitBuffer();
    AppendHeader(buf, data, version);
    // The header ends half way through a byte, so there is always room for all four bits.
    TerminatorIsFour(|buf.bits|, spec.DataCodewords() * 8);
    Terminate(buf, spec.DataCodewords() * 8);
    out := buf.Bytes();
    WholeBytes(|out|, |data|, version);
    out := Pad(out, spec.DataCodewords());
  }

  lemma WholeBytes(m: nat, n: nat, version: nat)
    requires 8 * m == 4 + CountBits(version) + 8 * n + 4
    ensures m == n + if version <= 9 then 2 else 3
  {}

  method AppendHeader(buf: BitBuffer, data: seq<Byte>, version: nat)
    requires buf.bits == []
    modifies buf
    ensures buf.bits == Header(data, version)
  {
    hide Spell, ByteBits, BitsOf;
    buf.Append(4, 4);
    buf.Append(|data|, CountBits(version));
    ModeBits();
    ghost var head := MODE + BitsOf(|data|, CountBits(version));
    SpellNothing();
    for i := 0 to |data|
      invariant buf.bits == head + Spell(data[..i])
    {
      buf.AppendByte(data[i]);
      SpellSnoc(data[..i], data[i]);
      assert data[..i + 1] == data[..i] + [data[i]];
    }
    assert data[..|data|] == data;
  }

  /** How many bits n is short of whole bytes. */
  function Missing(n: nat): (k: nat)
    ensures k < 8
  {
    (8 - n % 8) % 8
  }

  lemma MissingEndsByte(n: nat, k: nat)
    requires k <= Missing(n)
    ensures (n + k) % 8 == 0 <==> k == Missing(n)
  {
    var q, r := n / 8, n % 8;
    if r == 0 {
      assert Missing(n) == 0;
    } else {
      assert Missing(n) == 8 - r;
      if k == 8 - r { DivideExact(n + k, q + 1, 8, 0); } else { DivideExact(n + k, q, 8, r + k); }
    }
  }

  /** Filling up passes no whole number of bytes. */
  lemma MissingFits(n: nat, capacity: nat)
    requires n <= capacity && capacity % 8 == 0
    ensures n + Missing(n) <= capacity
  {
    MissingEndsByte(n, Missing(n));
    var up := n + Missing(n);
    hide Missing;
    if up > capacity { SameMultiple(up, capacity, 8); }
  }

  /** How many zero bits follow the payload: at most four, then up to the next byte. */
  function TerminatorLength(n: nat, capacity: nat): nat
    requires n <= capacity
  {
    var t := if capacity - n < 4 then capacity - n else 4;
    t + Missing(n + t)
  }

  lemma TerminatorIsFour(n: nat, capacity: nat)
    requires n % 8 == 4 && capacity % 8 == 0 && n <= capacity
    ensures TerminatorLength(n, capacity) == 4
  {}

  method Terminate(buf: BitBuffer, capacity: nat)
    requires capacity % 8 == 0 && |buf.bits| <= capacity
    modifies buf
    ensures buf.bits == old(buf.bits + Falses(TerminatorLength(|buf.bits|, capacity)))
    ensures |buf.bits| % 8 == 0 && |buf.bits| <= capacity
  {
    hide BitsOf, Falses, Missing;
    var rem := capacity - |buf.bits|;
    ghost var t := if rem < 4 then rem else 4;
    if rem > 0 {
      ZeroBits(t);
      buf.Append(0, if rem < 4 then rem else 4);
    }
    assert buf.bits == old(buf.bits) + Falses(t);
    TerminatorEndsByte(old(|buf.bits|), capacity);
    ghost var missing := FillByte(buf);
    FalsesSum(t, missing);
    Assoc(old(buf.bits), Falses(t), Falses(missing));
  }

  lemma TerminatorEndsByte(n: nat, capacity: nat)
    requires n <= capacity && capacity % 8 == 0
    ensures (n + TerminatorLength(n, capacity)) % 8 == 0 && n + TerminatorLength(n, capacity) <= capacity
  {
    hide Missing;
    var t := if capacity - n < 4 then capacity - n else 4;
    MissingEndsByte(n + t, Missing(n + t));
    MissingFits(n + t, capacity);
  }

  /** Zero bits up to the next byte boundary. */
  method FillByte(buf: BitBuffer) returns (ghost missing: nat)
    modifies buf
    ensures missing == Missing(old(|buf.bits|))
    ensures buf.bits == old(buf.bits) + Falses(missing)
  {
    hide BitsOf, Falses, Missing;
    ghost var mid := buf.bits;
    missing := Missing(|mid|);
    ghost var k := 0;
    NoFalses();
    MissingEndsByte(|mid|, 0);
    while |buf.bits| % 8 != 0
      invariant 0 <= k <= missing && buf.bits == mid + Falses(k)
      invariant |buf.bits| % 8 == 0 <==> k == missing
      decreases missing - k
    {
      ZeroBits(1);
      buf.Append(0, 1);
      FalsesSum(k, 1);
      k := k + 1;
      MissingEndsByte(|mid|, k);
    }
  }

  lemma NoFalses()
    ensures Falses(0) == []
  {}

  lemma FalsesSum(a: nat, b: nat)
    ensures Falses(a) + Falses(b) == Falses(a + b)
  {}

  lemma {:induction false} ZeroBits(n: nat)
    ensures BitsOf(0, n) == Falses(n)
  {
    if n > 0 { ZeroBits(n - 1); }
  }

  method Pad(start: seq<Byte>, want: nat) returns (out: seq<Byte>)
    requires |start| <= want
    ensures |out| == want && exists pads: nat :: Spell(out) == Spell(start) + Spell(PadBytes(pads))
    ensures forall i :: |start| <= i < want ==> Value(out[i]) == if (i - |start|) % 2 == 0 then 0xEC else 0x11
  {
    hide Spell;
    out := start;
    var i := 0;
    assert start == start + PadBytes(0);
    while |out| < want
      invariant |out| <= want
      invariant out == start + PadBytes(i)
    {
      assert PadBytes(i + 1) == PadBytes(i) + [if i % 2 == 0 then PAD0 else PAD1];
      if i % 2 == 0 {
        out := out + [PAD0];
      } else {
        out := out + [PAD1];
      }
      i := i + 1;
    }
    SpellConcat(start, PadBytes(i));
    ByteValue(PAD0);
    ByteValue(PAD1);
    hide Value;
    forall k | |start| <= k < want ensures Value(out[k]) == if (k - |start|) % 2 == 0 then 0xEC else 0x11 {
      assert out[k] == PadBytes(i)[k - |start|];
    }
  }

  lemma ModeBits()
    ensures BitsOf(4, 4) == MODE
  {
    assert BitsOf(4, 4) == BitsOf(2, 3) + [false];
    assert BitsOf(2, 3) == BitsOf(1, 2) + [false];
    assert BitsOf(1, 2) == BitsOf(0, 1) + [true];
  }

  lemma SpellNothing()
    ensures Spell([]) == []
  {}

  /** A scanner's reading of the data bits: mode, length, bytes. */
  function Parse(bits: seq<bool>, version: nat): Option<seq<Byte>> {
    var cb := if version <= 9 then 8 else 16;
    if |bits| < 4 + cb || bits[..4] != [false, true, false, false] then None
    else
      var length := BitsValue(bits[4..4 + cb]);
      if 4 + cb + 8 * length > |bits| then None
      else Some(ReadBytes(bits[4 + cb..], length))
  }

  function ReadBytes(bits: seq<bool>, n: nat): (s: seq<Byte>)
    requires 8 * n <= |bits|
    ensures |s| == n && forall i :: 0 <= i < n ==> s[i] == FromBits(bits[8 * i..8 * i + 8])
  {
    seq(n, i requires 0 <= i < n => FromBits(bits[8 * i..8 * i + 8]))
  }

  lemma ParseEncoding(out: seq<Byte>, data: seq<Byte>, version: nat, spec: BlockSpec)
    requires IsEncoding(out, data, version, spec)
    requires |data| < Exp2(CountBits(version))
    ensures Parse(Spell(out), version) == Some(data)
  {
    hide Spell, ByteBits, BitsOf, BitsValue, FromBits;
    var bits, cb, n := Spell(out), CountBits(version), |data|;
    var pads: nat :| bits == Header(data, version) + Falses(4) + Spell(PadBytes(pads));
    assert bits[..4] == MODE;
    assert bits[4..4 + cb] == BitsOf(n, cb);
    ReadBack(n, cb);
    var body := bits[4 + cb..];
    assert 4 + cb + 8 * n <= |bits|;
    assert body[..8 * n] == Spell(data);
    BodyReads(body, data);
    hide ReadBytes;
  }

  lemma BodyReads(body: seq<bool>, data: seq<Byte>)
    requires 8 * |data| <= |body| && body[..8 * |data|] == Spell(data)
    ensures ReadBytes(body, |data|) == data
  {
    hide Spell, ByteBits, FromBits;
    var n := |data|;
    forall i | 0 <= i < n ensures FromBits(body[8 * i..8 * i + 8]) == data[i] {
      assert body[8 * i..8 * i + 8] == body[..8 * n][8 * i..8 * i + 8];
      SpellWindow(data, i);
      BitsOfByte(data[i]);
    }
  }
}
