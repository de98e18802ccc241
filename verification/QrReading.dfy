/** The encoder's layout is the scanner's: the same reading order, function modules and block sizes. */
module QrReading {
  import opened Arithmetic
  import opened Sequences
  import opened Galois
  import opened QrFormat
  import opened QrData
  import opened QrBlocks
  import opened QrWalk
  import opened QrMatrix
  import opened QrCapacity
  import Scanner = QrScanner

  // ---- the reading order ----

  lemma {:induction false} PairWalkAt(size: int, p: nat, v: nat, j: nat)
    requires j < 2 * v
    ensures |PairWalk(size, p, v)| == 2 * v
    ensures PairWalk(size, p, v)[j] == Cell(Right(size, p) - j % 2, QrWalk.RowAt(size, p, j / 2))
  {
    PairWalkLength(size, p, v - 1);
    if j < 2 * (v - 1) { PairWalkAt(size, p, v - 1, j); }
  }

  lemma {:induction false} PairWalkLength(size: int, p: nat, v: nat)
    ensures |PairWalk(size, p, v)| == 2 * v
  {
    if v > 0 { PairWalkLength(size, p, v - 1); }
  }

  lemma {:induction false} WalkLength(size: nat, p: nat)
    ensures |Walk(size, p)| == 2 * size * p
  {
    hide PairWalk;
    if p > 0 {
      WalkLength(size, p - 1);
      PairWalkLength(size, p - 1, size);
      OneMoreWidth(2 * size, p);
    }
  }

  lemma OneMoreWidth(width: nat, p: nat)
    requires p > 0
    ensures width * p == width * (p - 1) + width
  {}

  /** A pair goes up when its number is even, also past column 6. */
  lemma UpInTurn(size: nat, p: nat)
    requires ValidSize(size) && p < Pairs(size)
    ensures Right(size, p) == if size - 1 - 2 * p > 6 then size - 1 - 2 * p else size - 2 - 2 * p
    ensures Upward(Right(size, p)) <==> p % 2 == 0
  {}

  lemma NthInPair(size: nat, p: nat, j: nat)
    requires ValidSize(size) && p < Pairs(size) && j < 2 * size
    ensures Scanner.Nth(size, 2 * size * p + j) == Cell(Right(size, p) - j % 2, QrWalk.RowAt(size, p, j / 2))
  {
    var k := 2 * size * p + j;
    DivideExact(k, p, 2 * size, j);
    DivideExact(k, size * p + j / 2, 2, j % 2);
    UpInTurn(size, p);
    hide Right, Upward;
  }

  lemma InLastPair(size: nat, p: nat, j: nat)
    requires ValidSize(size) && 0 < p <= Pairs(size) && j < 2 * size
    ensures |Walk(size, p)| == |Walk(size, p - 1)| + 2 * size
    ensures Walk(size, p)[|Walk(size, p - 1)| + j] == Scanner.Nth(size, |Walk(size, p - 1)| + j)
  {
    hide Right, PairWalk, QrWalk.RowAt, Scanner.Nth;
    PairWalkLength(size, p - 1, size);
    PairWalkAt(size, p - 1, size, j);
    NthInPair(size, p - 1, j);
    WalkLength(size, p - 1);
    var before, pair := Walk(size, p - 1), PairWalk(size, p - 1, size);
    assert Walk(size, p) == before + pair;
    hide Walk;
  }

  lemma InEarlierPair(size: nat, p: nat, k: nat)
    requires 0 < p && k < |Walk(size, p - 1)|
    ensures k < |Walk(size, p)| && Walk(size, p)[k] == Walk(size, p - 1)[k]
  {
    hide PairWalk;
  }

  /** The k-th module of the walk has a closed form. */
  lemma {:induction false} WalkAt(size: nat, p: nat, k: nat)
    requires ValidSize(size) && p <= Pairs(size) && k < |Walk(size, p)|
    ensures Walk(size, p)[k] == Scanner.Nth(size, k)
  {
    if p > 0 {
      hide Walk, Scanner.Nth;
      var n := |Walk(size, p - 1)|;
      if k < n {
        InEarlierPair(size, p, k);
        WalkAt(size, p - 1, k);
      } else {
        InLastPair(size, p, 0);
        InLastPair(size, p, k - n);
      }
    }
  }

  // ---- the data modules ----

  lemma AlignmentsAgree(version: nat, x: int, y: int)
    requires ValidVersion(version)
    ensures Scanner.InAlignment(version, x, y) <==> Alignment(version, x, y).Some?
  {
    hide RingDark;
  }

  lemma DataIsTheRest(version: nat, x: int, y: int)
    requires ValidVersion(version) && 0 <= x < Size(version) && 0 <= y < Size(version)
    ensures IsData(version, x, y) <==> !Scanner.Functional(version, x, y)
  {
    AlignmentsAgree(version, x, y);
    hide Alignment, Scanner.InAlignment;
  }

  lemma DataCellsNext(w: seq<Cell>, n: nat, version: nat)
    requires ValidVersion(version) && n < |w|
    ensures DataCells(w[..n + 1], version) == DataCells(w[..n], version) + if IsData(version, w[n].x, w[n].y) then [w[n]] else []
  {
    hide IsData;
    assert w[..n + 1][..n] == w[..n];
  }

  lemma WholeWalk(size: nat)
    requires ValidSize(size)
    ensures |FullWalk(size)| == size * (size - 1)
    ensures forall k :: 0 <= k < |FullWalk(size)| ==> FullWalk(size)[k] == Scanner.Nth(size, k)
  {
    hide Walk, Scanner.Nth;
    WalkLength(size, Pairs(size));
    Halves(size);
    forall k | 0 <= k < |FullWalk(size)| ensures FullWalk(size)[k] == Scanner.Nth(size, k) {
      WalkAt(size, Pairs(size), k);
    }
  }

  lemma Halves(size: nat)
    requires ValidSize(size)
    ensures 2 * size * Pairs(size) == size * (size - 1)
  {
    var h := Pairs(size);
    assert size == 2 * h + 1;
    assert 2 * size * h == size * (2 * h);
  }

  lemma NoDataCells(version: nat)
    requires ValidVersion(version)
    ensures DataCells([], version) == [] && Scanner.DataModules(version, 0) == []
  {}

  lemma NextDataModule(version: nat, n: nat)
    requires ValidVersion(version)
    ensures var c := Scanner.Nth(Size(version), n);
      Scanner.DataModules(version, n + 1)
        == Scanner.DataModules(version, n) + if Scanner.Functional(version, c.x, c.y) then [] else [c]
  {
    hide Scanner.Functional, Scanner.Nth;
  }

  lemma {:induction false} DataModulesAre(version: nat, w: seq<Cell>, n: nat)
    requires ValidVersion(version) && n <= |w| && InGrid(w, Size(version))
    requires forall k :: 0 <= k < |w| ==> w[k] == Scanner.Nth(Size(version), k)
    ensures Scanner.DataModules(version, n) == DataCells(w[..n], version)
  {
    hide IsData, Scanner.Functional, Scanner.Nth, DataCells, Scanner.DataModules;
    if n == 0 {
      assert w[..0] == [];
      NoDataCells(version);
    } else {
      DataModulesAre(version, w, n - 1);
      NextDataModule(version, n - 1);
      DataIsTheRest(version, w[n - 1].x, w[n - 1].y);
      DataCellsNext(w, n - 1, version);
    }
  }

  /** The scanner meets the data modules in the order in which the encoder filled them. */
  lemma SameDataWalk(version: nat)
    requires ValidVersion(version)
    ensures Scanner.Cells(version) == DataWalk(version)
  {
    hide FullWalk, DataCells, Scanner.DataModules;
    var w := FullWalk(Size(version));
    WholeWalk(Size(version));
    WalkIsComplete(Size(version));
    DataModulesAre(version, w, |w|);
    assert w[..|w|] == w;
  }

  // ---- the blocks ----

  /** So many data bytes in so many blocks, the longer by one. */
  predicate Published(spec: BlockSpec, bytes: nat, blocks: nat) {
    && 0 < blocks == spec.Blocks() && spec.DataCodewords() == bytes
    && spec.group2 < blocks && bytes == spec.data1 * blocks + spec.group2
    && (spec.group2 > 0 ==> spec.data2 == spec.data1 + 1)
  }

  /** The block table is the published one. */
  lemma SpecsArePublished(version: nat, level: Level)
    requires ValidVersion(version)
    ensures Published(Specs(version, level), Scanner.DataBytes(version, level), Scanner.BlockCount(version, level))
  {
    match level
    case LevelL => if version <= 5 { LowPublished(version); } else { MoreLowPublished(version); }
    case LevelM => MediumPublished(version);
    case LevelQ => QuartilePublished(version);
    case LevelH => HighPublished(version);
    hide Specs, Published;
  }

  lemma LowPublished(version: nat)
    requires 1 <= version <= 5
    ensures Published(Specs(version, LevelL), Scanner.BYTES_L[version - 1], Scanner.BLOCKS_L[version - 1])
  {
    if version == 1 {} else if version == 2 {} else if version == 3 {} else if version == 4 {} else {}
  }

  lemma MoreLowPublished(version: nat)
    requires 6 <= version <= 10
    ensures Published(Specs(version, LevelL), Scanner.BYTES_L[version - 1], Scanner.BLOCKS_L[version - 1])
  {
    if version == 6 {} else if version == 7 {} else if version == 8 {} else if version == 9 {} else {}
  }

  lemma MediumPublished(version: nat)
    requires ValidVersion(version)
    ensures Published(Specs(version, LevelM), Scanner.BYTES_M[version - 1], Scanner.BLOCKS_M[version - 1])
  {
    if version == 1 {} else if version == 2 {} else if version == 3 {} else if version == 4 {} else if version == 5 {}
    else if version == 6 {} else if version == 7 {} else if version == 8 {} else if version == 9 {} else {}
  }

  lemma QuartilePublished(version: nat)
    requires ValidVersion(version)
    ensures Published(Specs(version, LevelQ), Scanner.BYTES_Q[version - 1], Scanner.BLOCKS_Q[version - 1])
  {
    if version == 1 {} else if version == 2 {} else if version == 3 {} else if version == 4 {} else if version == 5 {}
    else if version == 6 {} else if version == 7 {} else if version == 8 {} else if version == 9 {} else {}
  }

  lemma HighPublished(version: nat)
    requires ValidVersion(version)
    ensures Published(Specs(version, LevelH), Scanner.BYTES_H[version - 1], Scanner.BLOCKS_H[version - 1])
  {
    if version == 1 {} else if version == 2 {} else if version == 3 {} else if version == 4 {} else if version == 5 {}
    else if version == 6 {} else if version == 7 {} else if version == 8 {} else if version == 9 {} else {}
  }

  /** As many codewords as fill the symbol: its modules less those of its patterns and fields, in whole bytes. */
  lemma SpecsFillTheModules(version: nat, level: Level)
    requires ValidVersion(version)
    ensures var raw := (16 * version + 128) * version + 64
        - (if version == 1 then 0 else if version < 7 then 25 else 140) - (if version < 7 then 0 else 36);
      Specs(version, level).TotalCodewords() == raw / 8
  {
    SpecsFillTheSymbol(version, level);
    CapacityIs(version);
    hide Specs, Capacity;
  }

  lemma CapacityIs(version: nat)
    requires ValidVersion(version)
    ensures var raw := (16 * version + 128) * version + 64
        - (if version == 1 then 0 else if version < 7 then 25 else 140) - (if version < 7 then 0 else 36);
      Capacity(version) == raw / 8
  {
    if version == 1 {} else if version == 2 {} else if version == 3 {} else if version == 4 {} else if version == 5 {}
    else if version == 6 {} else if version == 7 {} else if version == 8 {} else if version == 9 {} else {}
  }

  lemma SameBlockSizes(version: nat, level: Level)
    requires ValidVersion(version)
    ensures Sizes(Specs(version, level)) == Scanner.BlockSizes(version, level)
  {
    SpecsArePublished(version, level);
    hide Specs, Scanner.DataBytes, Scanner.BlockCount;
    var spec := Specs(version, level);
    DivideExact(spec.DataCodewords(), spec.data1, spec.Blocks(), spec.group2);
    assert |Scanner.BlockSizes(version, level)| == spec.Blocks();
  }

  /** The published block counts say how the stream is protected. */
  lemma ProtectionIsPublished(out: seq<Byte>, data: seq<Byte>, version: nat, level: Level)
    requires ValidVersion(version) && IsInterleaving(out, data, Specs(version, level))
    requires |out| == Specs(version, level).TotalCodewords()
    ensures Scanner.IsProtected(out, version, level)
  {
    var spec := Specs(version, level);
    SpecsArePublished(version, level);
    SameBlockSizes(version, level);
    hide Specs, Scanner.DataBytes, Scanner.BlockCount, Scanner.BlockSizes, IsInterleaving, Sizes, Deinterleave, AllProtected,
      Scanner.IsProtected, BlockSpec.DataCodewords, BlockSpec.TotalCodewords, BlockSpec.Blocks;
    StreamProtectsAll(out, data, spec);
    IsProtectedAs(out, spec.DataCodewords(), spec.Blocks(), spec.ecPerBlock, version, level);
  }

  lemma IsProtectedAs(out: seq<Byte>, d: nat, k: nat, n: nat, version: nat, level: Level)
    requires ValidVersion(version) && d == Scanner.DataBytes(version, level) && k == Scanner.BlockCount(version, level) > 0
    requires |out| >= d && (|out| - d) / k == n
    requires AllProtected(out, Deinterleave(out, Scanner.BlockSizes(version, level)), d, k, n)
    ensures Scanner.IsProtected(out, version, level)
  {
    hide AllProtected, Deinterleave, Scanner.BlockSizes, Scanner.DataBytes, Scanner.BlockCount;
  }

  /** A message fits when its bytes do. */
  lemma FitsIsRoom(n: nat, version: nat, level: Level)
    requires ValidVersion(version)
    ensures Fits(n, version, level) <==> n <= Scanner.Room(version, level)
  {
    SpecsArePublished(version, level);
    hide Specs, Scanner.DataBytes, Scanner.BlockCount;
  }
}
