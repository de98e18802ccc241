/** Splitting the data into blocks, adding each block's error correction, and interleaving. */
module QrBlocks {
  import opened Arithmetic
  import opened Galois
  import opened ReedSolomon
  import opened QrData

  /** Block sizes, in order: group 1 then group 2. */
  function Sizes(spec: BlockSpec): (s: seq<nat>)
    ensures |s| == spec.Blocks()
  {
    seq(spec.group1, _ => spec.data1) + seq(spec.group2, _ => spec.data2)
  }

  function Total(sizes: seq<nat>): nat {
    if sizes == [] then 0 else Total(sizes[..|sizes| - 1]) + sizes[|sizes| - 1]
  }

  function Join(blocks: seq<seq<Byte>>): seq<Byte> {
    if blocks == [] then [] else Join(blocks[..|blocks| - 1]) + blocks[|blocks| - 1]
  }

  ghost predicate HasSizes(blocks: seq<seq<Byte>>, sizes: seq<nat>) {
    |blocks| == |sizes| && forall b :: 0 <= b < |blocks| ==> |blocks[b]| == sizes[b]
  }

  /** The i-th codewords of the blocks that have one. */
  function Row(blocks: seq<seq<Byte>>, i: nat): (r: seq<Byte>) {
    if blocks == [] then []
    else
      var last := blocks[|blocks| - 1];
      Row(blocks[..|blocks| - 1], i) + if i < |last| then [last[i]] else []
  }

  /** Rows 0 .. n-1, one after the other: the column-wise reading of the blocks. */
  function Rows(blocks: seq<seq<Byte>>, n: nat): seq<Byte> {
    if n == 0 then [] else Rows(blocks, n - 1) + Row(blocks, n - 1)
  }

  // ---- reading the blocks back ----

  /** How many of the sizes reach past i. */
  function Reach(sizes: seq<nat>, i: nat): nat {
    if sizes == [] then 0 else Reach(sizes[..|sizes| - 1], i) + if i < sizes[|sizes| - 1] then 1 else 0
  }

  function RowsLength(sizes: seq<nat>, n: nat): nat {
    if n == 0 then 0 else RowsLength(sizes, n - 1) + Reach(sizes, n - 1)
  }

  /** Block b of the stream: for each i, skip the earlier rows, then the earlier blocks of this row. */
  function Pick(stream: seq<Byte>, sizes: seq<nat>, b: nat): (s: seq<Byte>)
    requires b < |sizes|
    ensures |s| == sizes[b]
  {
    seq(sizes[b], i requires 0 <= i < sizes[b] =>
      if Place(sizes, b, i) < |stream| then stream[Place(sizes, b, i)] else ZERO)
  }

  function Place(sizes: seq<nat>, b: nat, i: nat): nat
    requires b < |sizes|
  {
    RowsLength(sizes, i) + Reach(sizes[..b], i)
  }

  function Deinterleave(stream: seq<Byte>, sizes: seq<nat>): (blocks: seq<seq<Byte>>)
    ensures |blocks| == |sizes|
  {
    seq(|sizes|, b requires 0 <= b < |sizes| => Pick(stream, sizes, b))
  }

  lemma {:induction false} RowLength(blocks: seq<seq<Byte>>, sizes: seq<nat>, i: nat)
    requires HasSizes(blocks, sizes)
    ensures |Row(blocks, i)| == Reach(sizes, i)
  {
    if blocks != [] { RowLength(blocks[..|blocks| - 1], sizes[..|sizes| - 1], i); }
  }

  lemma {:induction false} RowAt(blocks: seq<seq<Byte>>, sizes: seq<nat>, i: nat, b: nat)
    requires HasSizes(blocks, sizes) && b < |blocks| && i < sizes[b]
    ensures Reach(sizes[..b], i) < Reach(sizes, i) == |Row(blocks, i)|
    ensures Row(blocks, i)[Reach(sizes[..b], i)] == blocks[b][i]
  {
    var n := |blocks| - 1;
    RowLength(blocks, sizes, i);
    RowLength(blocks[..n], sizes[..n], i);
    if b < n {
      RowAt(blocks[..n], sizes[..n], i, b);
      assert sizes[..n][..b] == sizes[..b];
    }
  }

  lemma {:induction false} RowsAt(blocks: seq<seq<Byte>>, sizes: seq<nat>, n: nat, b: nat, i: nat)
    requires HasSizes(blocks, sizes) && b < |blocks| && i < sizes[b] && i < n
    ensures |Rows(blocks, n)| == RowsLength(sizes, n)
    ensures Place(sizes, b, i) < |Rows(blocks, n)|
    ensures Rows(blocks, n)[Place(sizes, b, i)] == blocks[b][i]
  {
    hide Row, Reach;
    RowsTotal(blocks, sizes, n);
    RowsTotal(blocks, sizes, n - 1);
    RowLength(blocks, sizes, n - 1);
    var before, row := Rows(blocks, n - 1), Row(blocks, n - 1);
    assert Rows(blocks, n) == before + row;
    if i == n - 1 {
      RowAt(blocks, sizes, i, b);
    } else {
      RowsAt(blocks, sizes, n - 1, b, i);
    }
  }

  lemma {:induction false} RowsTotal(blocks: seq<seq<Byte>>, sizes: seq<nat>, n: nat)
    requires HasSizes(blocks, sizes)
    ensures |Rows(blocks, n)| == RowsLength(sizes, n)
  {
    hide HasSizes, Row, Reach;
    if n > 0 {
      RowsTotal(blocks, sizes, n - 1);
      RowLength(blocks, sizes, n - 1);
    }
  }

  /** Interleaving loses nothing: whatever follows the rows, the blocks come back exactly. */
  lemma InterleaveInverts(blocks: seq<seq<Byte>>, sizes: seq<nat>, n: nat, rest: seq<Byte>)
    requires HasSizes(blocks, sizes) && forall b :: 0 <= b < |sizes| ==> sizes[b] <= n
    ensures Deinterleave(Rows(blocks, n) + rest, sizes) == blocks
  {
    var stream := Rows(blocks, n) + rest;
    forall b, i | 0 <= b < |sizes| && 0 <= i < sizes[b]
      ensures Place(sizes, b, i) < |stream| && stream[Place(sizes, b, i)] == blocks[b][i]
    {
      RowsAt(blocks, sizes, n, b, i);
    }
    forall b | 0 <= b < |sizes| ensures Pick(stream, sizes, b) == blocks[b] {}
  }

  // ---- lengths ----

  lemma {:induction false} TotalConstant(n: nat, size: nat)
    ensures Total(seq(n, _ => size)) == n * size
  {
    if n > 0 {
      TotalConstant(n - 1, size);
      assert seq(n, _ => size)[..n - 1] == seq(n - 1, _ => size);
    } else {
      assert n * size == 0;
    }
  }

  lemma {:induction false} TotalConcat(a: seq<nat>, b: seq<nat>)
    ensures Total(a + b) == Total(a) + Total(b)
  {
    if b == [] {
      assert a + b == a;
    } else {
      var n := |b| - 1;
      TotalConcat(a, b[..n]);
      assert (a + b)[..|a| + n] == a + b[..n];
    }
  }

  lemma TotalSizes(spec: BlockSpec)
    ensures Total(Sizes(spec)) == spec.DataCodewords()
  {
    TotalConstant(spec.group1, spec.data1);
    TotalConstant(spec.group2, spec.data2);
    TotalConcat(seq(spec.group1, _ => spec.data1), seq(spec.group2, _ => spec.data2));
  }

  lemma {:induction false} JoinLength(blocks: seq<seq<Byte>>, sizes: seq<nat>)
    requires HasSizes(blocks, sizes)
    ensures |Join(blocks)| == Total(sizes)
  {
    if blocks != [] { JoinLength(blocks[..|blocks| - 1], sizes[..|sizes| - 1]); }
  }

  /** All n rows together hold every codeword. */
  lemma {:induction false} RowsLengthTotal(sizes: seq<nat>, n: nat)
    requires forall b :: 0 <= b < |sizes| ==> sizes[b] <= n
    ensures RowsLength(sizes, n) == Total(sizes)
  {
    if sizes == [] {
      NoRows(n);
    } else {
      var m := |sizes| - 1;
      RowsLengthTotal(sizes[..m], n);
      RowsLengthStep(sizes, n);
    }
  }

  lemma {:induction false} NoRows(n: nat)
    ensures RowsLength([], n) == 0
  {
    if n > 0 { NoRows(n - 1); }
  }

  lemma {:induction false} RowsLengthStep(sizes: seq<nat>, n: nat)
    requires sizes != []
    ensures RowsLength(sizes, n) == RowsLength(sizes[..|sizes| - 1], n)
            + if n < sizes[|sizes| - 1] then n else sizes[|sizes| - 1]
  {
    if n > 0 { RowsLengthStep(sizes, n - 1); }
  }

  // ---- the encoder's loops ----

  /** Each block is a run of the data with the codewords that make it a Reed-Solomon codeword. */
  ghost predicate Protects(blocks: seq<seq<Byte>>, ecs: seq<seq<Byte>>, n: nat) {
    && |ecs| == |blocks|
    && forall b :: 0 <= b < |blocks| ==> |ecs[b]| == n && IsCodeword(blocks[b] + ecs[b], n)
  }

  /** `count` more blocks of one size. */
  ghost predicate Appended(before: seq<seq<Byte>>, after: seq<seq<Byte>>, count: nat, size: nat) {
    && |after| == |before| + count && before <= after
    && forall b :: |before| <= b < |after| ==> |after[b]| == size
  }

  method AddBlocks(t: Tables, data: seq<Byte>, count: nat, size: nat, n: nat,
                   blocks: seq<seq<Byte>>, ecs: seq<seq<Byte>>, pos: nat)
    returns (blocks': seq<seq<Byte>>, ecs': seq<seq<Byte>>, pos': nat)
    requires t.Valid() && n <= 512
    requires pos + count * size <= |data| && Join(blocks) == data[..pos] && Protects(blocks, ecs, n)
    ensures pos' == pos + count * size && Join(blocks') == data[..pos'] && Protects(blocks', ecs', n)
    ensures Appended(blocks, blocks', count, size)
  {
    hide IsCodeword, Protects, Join, Appended;
    blocks', ecs', pos' := blocks, ecs, pos;
    NoBlocks(blocks, size);
    for i := 0 to count
      invariant pos' == pos + i * size && Join(blocks') == data[..pos'] && Protects(blocks', ecs', n)
      invariant Appended(blocks, blocks', i, size)
    {
      NextBlock(i, count, size);
      NextSlice(data, pos', size);
      var d := data[pos'..pos' + size];
      pos' := pos' + size;
      var ec := t.Encode(d, n);
      AddBlock(blocks', ecs', n, d, ec);
      OneMore(blocks, blocks', i, size, d);
      blocks', ecs' := blocks' + [d], ecs' + [ec];
    }
  }

  lemma NoBlocks(blocks: seq<seq<Byte>>, size: nat)
    ensures Appended(blocks, blocks, 0, size)
  {}

  lemma OneMore(before: seq<seq<Byte>>, after: seq<seq<Byte>>, count: nat, size: nat, d: seq<Byte>)
    requires Appended(before, after, count, size) && |d| == size
    ensures Appended(before, after + [d], count + 1, size)
  {}

  lemma NextSlice(data: seq<Byte>, pos: nat, size: nat)
    requires pos + size <= |data|
    ensures data[..pos + size] == data[..pos] + data[pos..pos + size]
  {}

  lemma NextBlock(i: nat, count: nat, size: nat)
    requires i < count
    ensures (i + 1) * size == i * size + size <= count * size
  {
    MulMonotone(i + 1, count, size);
  }

  lemma AddBlock(blocks: seq<seq<Byte>>, ecs: seq<seq<Byte>>, n: nat, d: seq<Byte>, ec: seq<Byte>)
    requires Protects(blocks, ecs, n) && |ec| == n && IsCodeword(d + ec, n)
    ensures Protects(blocks + [d], ecs + [ec], n) && Join(blocks + [d]) == Join(blocks) + d
  {
    hide IsCodeword;
    assert (blocks + [d])[..|blocks|] == blocks;
  }

  method ReadRow(blocks: seq<seq<Byte>>, i: nat) returns (row: seq<Byte>)
    ensures row == Row(blocks, i)
  {
    row := [];
    for b := 0 to |blocks|
      invariant row == Row(blocks[..b], i)
    {
      assert blocks[..b + 1][..b] == blocks[..b];
      if i < |blocks[b]| {
        row := row + [blocks[b][i]];
      }
    }
    assert blocks[..|blocks|] == blocks;
  }

  /** What `out` is: the rows of the data blocks, then the rows of their error correction. */
  ghost predicate IsInterleaving(out: seq<Byte>, data: seq<Byte>, spec: BlockSpec) {
    exists blocks, ecs ::
      && HasSizes(blocks, Sizes(spec)) && Join(blocks) == data
      && Protects(blocks, ecs, spec.ecPerBlock)
      && out == Rows(blocks, MaxData(spec)) + Rows(ecs, spec.ecPerBlock)
  }

  function MaxData(spec: BlockSpec): nat {
    if spec.data1 < spec.data2 then spec.data2 else spec.data1
  }

  method SplitBlocks(t: Tables, data: seq<Byte>, spec: BlockSpec)
    returns (blocks: seq<seq<Byte>>, ecs: seq<seq<Byte>>)
    requires t.Valid() && spec.ecPerBlock <= 512 && |data| == spec.DataCodewords()
    ensures HasSizes(blocks, Sizes(spec)) && Join(blocks) == data && Protects(blocks, ecs, spec.ecPerBlock)
  {
    hide IsCodeword;
    var pos;
    blocks, ecs, pos := AddBlocks(t, data, spec.group1, spec.data1, spec.ecPerBlock, [], [], 0);
    ghost var first := blocks;
    blocks, ecs, pos := AddBlocks(t, data, spec.group2, spec.data2, spec.ecPerBlock, blocks, ecs, pos);
    assert forall b :: 0 <= b < |first| ==> blocks[b] == first[b];
    assert data[..pos] == data;
  }

  method ReadRows(blocks: seq<seq<Byte>>, n: nat) returns (out: seq<Byte>)
    ensures out == Rows(blocks, n)
  {
    hide Row;
    out := [];
    for i := 0 to n
      invariant out == Rows(blocks, i)
    {
      var row := ReadRow(blocks, i);
      out := out + row;
    }
  }

  method Interleave(t: Tables, data: seq<Byte>, spec: BlockSpec) returns (out: seq<Byte>)
    requires t.Valid() && spec.ecPerBlock <= 512 && |data| == spec.DataCodewords()
    ensures IsInterleaving(out, data, spec)
    ensures |out| == spec.TotalCodewords()
  {
    hide IsCodeword, Protects, HasSizes, Rows, Join;
    var blocks, ecs := SplitBlocks(t, data, spec);
    var dataRows := ReadRows(blocks, MaxData(spec));
    var ecRows := ReadRows(ecs, spec.ecPerBlock);
    out := dataRows + ecRows;
    StreamLength(blocks, ecs, spec);
  }

  lemma StreamLength(blocks: seq<seq<Byte>>, ecs: seq<seq<Byte>>, spec: BlockSpec)
    requires HasSizes(blocks, Sizes(spec)) && Protects(blocks, ecs, spec.ecPerBlock)
    ensures |Rows(blocks, MaxData(spec)) + Rows(ecs, spec.ecPerBlock)| == spec.TotalCodewords()
  {
    hide IsCodeword;
    var ecSizes := seq(|ecs|, _ => spec.ecPerBlock);
    RowsTotal(blocks, Sizes(spec), MaxData(spec));
    RowsLengthTotal(Sizes(spec), MaxData(spec));
    TotalSizes(spec);
    RowsTotal(ecs, ecSizes, spec.ecPerBlock);
    RowsLengthTotal(ecSizes, spec.ecPerBlock);
    TotalConstant(|ecs|, spec.ecPerBlock);
  }

  lemma MaxCovers(spec: BlockSpec)
    ensures forall b :: 0 <= b < |Sizes(spec)| ==> Sizes(spec)[b] <= MaxData(spec)
  {}

  /** A scanner gets the data codewords back from the interleaved stream. */
  lemma DeinterleaveStream(out: seq<Byte>, data: seq<Byte>, spec: BlockSpec, rest: seq<Byte>)
    requires IsInterleaving(out, data, spec)
    ensures Join(Deinterleave(out + rest, Sizes(spec))) == data
  {
    hide HasSizes, Rows, Join, Protects, Sizes, MaxData, Deinterleave;
    var blocks, ecs :|
      && HasSizes(blocks, Sizes(spec)) && Join(blocks) == data
      && Protects(blocks, ecs, spec.ecPerBlock)
      && out == Rows(blocks, MaxData(spec)) + Rows(ecs, spec.ecPerBlock);
    var rows, ecRows := Rows(blocks, MaxData(spec)), Rows(ecs, spec.ecPerBlock);
    MaxCovers(spec);
    InterleaveInverts(blocks, Sizes(spec), MaxData(spec), ecRows + rest);
    assert rows + (ecRows + rest) == out + rest;
  }

  // ---- where the check bytes are ----

  function Equal(k: nat, n: nat): seq<nat> {
    seq(k, _ => n)
  }

  lemma {:induction false} EqualReach(k: nat, n: nat, i: nat)
    requires i < n
    ensures Reach(Equal(k, n), i) == k
  {
    if k > 0 {
      EqualReach(k - 1, n, i);
      assert Equal(k, n)[..k - 1] == Equal(k - 1, n);
    }
  }

  lemma {:induction false} EqualRows(k: nat, n: nat, i: nat)
    requires i <= n
    ensures RowsLength(Equal(k, n), i) == i * k
  {
    if i > 0 {
      EqualRows(k, n, i - 1);
      EqualReach(k, n, i - 1);
      assert i * k == (i - 1) * k + k;
    }
  }

  /** Blocks of one length interleave into rows of one length. */
  lemma EqualBlocksAt(blocks: seq<seq<Byte>>, n: nat, b: nat, i: nat)
    requires HasSizes(blocks, Equal(|blocks|, n)) && b < |blocks| && i < n
    ensures |Rows(blocks, n)| == n * |blocks| && 0 <= i * |blocks| + b < |Rows(blocks, n)|
    ensures Rows(blocks, n)[i * |blocks| + b] == blocks[b][i]
  {
    var sizes := Equal(|blocks|, n);
    RowsAt(blocks, sizes, n, b, i);
    RowsTotal(blocks, sizes, n);
    EqualRows(|blocks|, n, n);
    EqualRows(|blocks|, n, i);
    EqualReach(b, n, i);
    assert sizes[..b] == Equal(b, n);
    hide Rows, RowsLength, Reach;
  }

  /** The check bytes of block b: one from each row that follows the d data bytes. */
  function CheckBytes(stream: seq<Byte>, d: nat, k: nat, n: nat, b: nat): (s: seq<Byte>)
    ensures |s| == n
  {
    seq(n, i requires 0 <= i < n => if d + i * k + b < |stream| then stream[d + i * k + b] else ZERO)
  }

  /** Every one of k blocks is a codeword with its n check bytes: it vanishes at 2^0, 2^1, ... 2^(n-1). */
  ghost predicate AllProtected(stream: seq<Byte>, blocks: seq<seq<Byte>>, d: nat, k: nat, n: nat) {
    |blocks| == k && |stream| == d + n * k &&
    forall b, t :: 0 <= b < k && 0 <= t < n ==> Eval(blocks[b] + CheckBytes(stream, d, k, n, b), Power(t)) == ZERO
  }

  lemma CheckBytesShare(spec: BlockSpec)
    ensures spec.Blocks() > 0 ==> (spec.TotalCodewords() - spec.DataCodewords()) / spec.Blocks() == spec.ecPerBlock
  {
    var k, n := spec.Blocks(), spec.ecPerBlock;
    if k > 0 { DivideExact(k * n, n, k, 0); }
  }

  lemma StreamProtectsAll(out: seq<Byte>, data: seq<Byte>, spec: BlockSpec)
    requires IsInterleaving(out, data, spec) && |out| == spec.TotalCodewords()
    ensures AllProtected(out, Deinterleave(out, Sizes(spec)), spec.DataCodewords(), spec.Blocks(), spec.ecPerBlock)
    ensures |out| >= spec.DataCodewords() && (spec.Blocks() > 0 ==> (|out| - spec.DataCodewords()) / spec.Blocks() == spec.ecPerBlock)
  {
    CheckBytesShare(spec);
    hide IsInterleaving, Sizes, CheckBytes, Deinterleave, Eval, Power;
    var d, k, n := spec.DataCodewords(), spec.Blocks(), spec.ecPerBlock;
    forall b, t | 0 <= b < k && 0 <= t < n
      ensures Eval(Deinterleave(out, Sizes(spec))[b] + CheckBytes(out, d, k, n, b), Power(t)) == ZERO
    {
      StreamIsProtected(out, data, spec, b, t);
    }
  }

  /** Each block of the stream, with its check bytes, vanishes at the first powers of two. */
  lemma StreamIsProtected(out: seq<Byte>, data: seq<Byte>, spec: BlockSpec, b: nat, t: nat)
    requires IsInterleaving(out, data, spec) && b < spec.Blocks() && t < spec.ecPerBlock
    ensures Eval(Deinterleave(out, Sizes(spec))[b] + CheckBytes(out, spec.DataCodewords(), spec.Blocks(), spec.ecPerBlock, b),
                 Power(t)) == ZERO
  {
    hide Rows, Join, Sizes, MaxData, Deinterleave, Eval, Power;
    var n, k := spec.ecPerBlock, spec.Blocks();
    var blocks, ecs :|
      && HasSizes(blocks, Sizes(spec)) && Join(blocks) == data
      && Protects(blocks, ecs, n)
      && out == Rows(blocks, MaxData(spec)) + Rows(ecs, n);
    MaxCovers(spec);
    InterleaveInverts(blocks, Sizes(spec), MaxData(spec), Rows(ecs, n));
    DataRowsLength(blocks, spec);
    assert HasSizes(ecs, Equal(|ecs|, n));
    forall i | 0 <= i < n ensures CheckBytes(out, spec.DataCodewords(), k, n, b)[i] == ecs[b][i] {
      EqualBlocksAt(ecs, n, b, i);
    }
    assert CheckBytes(out, spec.DataCodewords(), k, n, b) == ecs[b];
  }

  lemma DataRowsLength(blocks: seq<seq<Byte>>, spec: BlockSpec)
    requires HasSizes(blocks, Sizes(spec))
    ensures |Rows(blocks, MaxData(spec))| == spec.DataCodewords()
  {
    hide Rows, Sizes;
    MaxCovers(spec);
    RowsTotal(blocks, Sizes(spec), MaxData(spec));
    RowsLengthTotal(Sizes(spec), MaxData(spec));
    TotalSizes(spec);
  }
}
