/** The encoder as a whole, and a scanner's reading of an undamaged symbol. */
module Qr {
  import opened Options
  import opened Arithmetic
  import opened Galois
  import opened ReedSolomon
  import opened Bits
  import opened QrFormat
  import opened QrData
  import opened QrBlocks
  import opened QrWalk
  import opened QrMatrix
  import opened QrCapacity
  import opened QrPictures
  import opened QrReading
  import Scanner = QrScanner

  class Code {
    const modules: array2<bool>
    const version: nat
    const level: Level

    constructor (version: nat, level: Level)
      requires ValidVersion(version)
      ensures this.version == version && this.level == level
      ensures modules.Length0 == modules.Length1 == Size(version) && fresh(modules)
      ensures forall x, y :: 0 <= x < Size(version) && 0 <= y < Size(version) ==> !modules[y, x]
    {
      this.version := version;
      this.level := level;
      this.modules := new bool[Size(version), Size(version)]((_, _) => false);
    }
  }

  // ---- building one ----

  /**
   A complete symbol: the frame, the format field naming the level and mask and the version field
   the version, both with their check bits, and the codewords on the modules a scanner reads.
   */
  ghost predicate Complete(modules: array2<bool>, version: nat, level: Level, mask: nat, codewords: seq<Byte>)
    requires SizeOf(modules, version)
    reads modules
  {
    && HasFrame(modules, version)
    && Scanner.IsSymbol(modules) && ReadFormat(Scanner.FormatField(modules)) == (level, mask)
    && IsMultiple(FORMAT_GEN, XorBits(Scanner.FormatField(modules), FORMAT_MASK))
    && (version >= 7 ==>
      BitsValue(VersionField(modules, version)[..6]) == version && IsMultiple(VERSION_GEN, VersionField(modules, version)))
    && InGrid(Scanner.Cells(version), modules.Length0) && Carries(modules, Scanner.Cells(version), codewords, mask)
  }

  method BuildMatrix(version: nat, level: Level, codewords: seq<Byte>, mask: nat) returns (c: Code)
    requires ValidVersion(version) && mask < 8
    ensures c.version == version && c.level == level
    ensures c.modules.Length0 == c.modules.Length1 == Size(version)
    ensures Complete(c.modules, version, level, mask, codewords)
  {
    hide Carries, Drawn, ReadFormat, IsMultiple, Free, DataWalk, IsData, ShowsPatterns, HasFrame, Scanner.Cells;
    c := new Code(version, level);
    var size := Size(version);
    var reserved := new bool[size, size]((_, _) => false);
    var format := FormatInfo(level, mask);
    var info := [];
    if version >= 7 {
      info := VersionInfo(version);
    }
    ghost var f := Fields(format, info);
    DrawPatterns(c.modules, reserved, version, Fields(format, info));
    FillData(c.modules, reserved, version, codewords, mask, f);
    FrameIsShown(c.modules, version, f);
    SameDataWalk(version);
  }

  method FillData(modules: array2<bool>, reserved: array2<bool>, version: nat, codewords: seq<Byte>, mask: nat, ghost f: Fields)
    requires ValidVersion(version) && Square(modules, reserved, Size(version))
    requires ShowsPatterns(modules, version, f)
    requires forall x, y :: 0 <= x < Size(version) && 0 <= y < Size(version) ==>
      reserved[y, x] == !IsData(version, x, y)
    modifies modules
    ensures ShowsPatterns(modules, version, f)
    ensures Carries(modules, DataWalk(version), codewords, mask)
  {
    hide Carries, Free, DataWalk, IsData, Drawn;
    FreeIsDataWalk(reserved, version);
    PlaceData(modules, reserved, codewords, mask, Size(version));
    forall x, y | 0 <= x < Size(version) && 0 <= y < Size(version) && Drawn(6, version, f, x, y).Some?
      ensures modules[y, x] == Drawn(6, version, f, x, y).value
    {
      FieldsDoNotMatter(version, f, x, y);
    }
  }

  lemma FreeIsDataWalk(reserved: array2<bool>, version: nat)
    requires ValidVersion(version) && reserved.Length0 == reserved.Length1 == Size(version)
    requires forall x, y :: 0 <= x < Size(version) && 0 <= y < Size(version) ==>
      reserved[y, x] == !IsData(version, x, y)
    ensures ValidSize(Size(version)) && InGrid(FullWalk(Size(version)), Size(version))
    ensures Free(FullWalk(Size(version)), reserved) == DataWalk(version)
  {
    WalkIsComplete(Size(version));
    FreeIsData(reserved, version, FullWalk(Size(version)));
  }

  method DrawPatterns(modules: array2<bool>, reserved: array2<bool>, version: nat, f: Fields)
    requires ValidVersion(version) && Square(modules, reserved, Size(version))
    requires |f.format| == 15 && (version >= 7 ==> |f.version| == 18)
    requires forall x, y :: 0 <= x < Size(version) && 0 <= y < Size(version) ==> !reserved[y, x]
    modifies modules, reserved
    ensures ShowsPatterns(modules, version, f)
    ensures forall x, y :: 0 <= x < Size(version) && 0 <= y < Size(version) ==>
      reserved[y, x] == !IsData(version, x, y)
  {
    Nothing(modules, reserved, version, f);
    hide ShowsLayers;
    DrawFinders(modules, reserved, version, f);
    DrawTiming(modules, reserved, version, f);
    DrawAlignments(modules, reserved, version, f);
    DrawDark(modules, reserved, version, f);
    DrawFormat(modules, reserved, version, f);
    DrawVersion(modules, reserved, version, f);
    Everything(modules, reserved, version, f);
  }

  lemma Nothing(modules: array2<bool>, reserved: array2<bool>, version: nat, f: Fields)
    requires ValidVersion(version) && Square(modules, reserved, Size(version))
    requires forall x, y :: 0 <= x < Size(version) && 0 <= y < Size(version) ==> !reserved[y, x]
    ensures ShowsLayers(modules, reserved, 0, version, f)
  {}

  lemma Everything(modules: array2<bool>, reserved: array2<bool>, version: nat, f: Fields)
    requires ValidVersion(version) && Square(modules, reserved, Size(version))
    requires ShowsLayers(modules, reserved, 6, version, f)
    ensures ShowsPatterns(modules, version, f)
    ensures forall x, y :: 0 <= x < Size(version) && 0 <= y < Size(version) ==>
      reserved[y, x] == !IsData(version, x, y)
  {
    forall x, y | 0 <= x < Size(version) && 0 <= y < Size(version)
      ensures reserved[y, x] == !IsData(version, x, y)
      ensures Drawn(6, version, f, x, y).Some? ==> modules[y, x] == Drawn(6, version, f, x, y).value
    {
      assert Seen(modules, reserved, x, y) == Drawn(6, version, f, x, y);
      FieldsDoNotMatter(version, f, x, y);
    }
  }

  lemma FieldsDoNotMatter(version: nat, f: Fields, x: int, y: int)
    requires ValidVersion(version)
    ensures IsData(version, x, y) == Drawn(6, version, f, x, y).None?
  {}

  lemma {:induction false} FreeIsData(reserved: array2<bool>, version: nat, w: seq<Cell>)
    requires ValidVersion(version) && reserved.Length0 == reserved.Length1 == Size(version)
    requires InGrid(w, Size(version))
    requires forall x, y :: 0 <= x < Size(version) && 0 <= y < Size(version) ==>
      reserved[y, x] == !IsData(version, x, y)
    ensures Free(w, reserved) == DataCells(w, version)
  {
    hide IsData;
    if w != [] { FreeIsData(reserved, version, w[..|w| - 1]); }
  }

  // ---- reading what was built ----

  lemma StreamReadsBack(bits: seq<bool>, codewords: seq<Byte>) returns (rest: seq<Byte>)
    requires 8 * |codewords| <= |bits|
    requires forall k :: 0 <= k < |bits| ==> bits[k] == StreamBit(codewords, k)
    ensures ReadBytes(bits, |bits| / 8) == codewords + rest
  {
    hide ByteBits, FromBits, StreamBit;
    var stream := ReadBytes(bits, |bits| / 8);
    rest := stream[|codewords|..];
    forall i | 0 <= i < |codewords| ensures stream[i] == codewords[i] {
      CodewordReadsBack(bits, codewords, i);
    }
  }

  lemma CodewordReadsBack(bits: seq<bool>, codewords: seq<Byte>, i: nat)
    requires 8 * |codewords| <= |bits| && i < |codewords|
    requires forall k :: 0 <= k < |bits| ==> bits[k] == StreamBit(codewords, k)
    ensures FromBits(bits[8 * i..8 * i + 8]) == codewords[i]
  {
    hide ByteBits, FromBits, StreamBit;
    var s := bits[8 * i..8 * i + 8];
    forall j | 0 <= j < 8 ensures s[j] == ByteBits(codewords[i])[j] {
      DataBitIs(codewords, 8 * i + j);
      DivideExact(8 * i + j, i, 8, j);
    }
    assert s == ByteBits(codewords[i]);
    BitsOfByte(codewords[i]);
  }

  lemma SymbolReadsBack(modules: array2<bool>, version: nat, level: Level, mask: nat,
                        data: seq<Byte>, coded: seq<Byte>, codewords: seq<Byte>)
    requires SizeOf(modules, version) && Complete(modules, version, level, mask, codewords)
    requires IsInterleaving(codewords, coded, Specs(version, level))
    requires |codewords| == Specs(version, level).TotalCodewords()
    requires IsEncoding(coded, data, version, Specs(version, level)) && Fits(|data|, version, level)
    ensures Scanner.IsSymbol(modules) && Scanner.Decode(modules) == Some((data, level))
  {
    hide Carries, HasFrame, Spell, IsInterleaving, IsEncoding, Specs, IsMultiple, ReadFormat, Scanner.FormatField,
      Scanner.DecodeWith, DataWalk, Scanner.Cells;
    SameDataWalk(version);
    DataReadsBack(modules, version, level, mask, data, coded, codewords);
  }

  lemma DataReadsBack(modules: array2<bool>, version: nat, level: Level, mask: nat,
                      data: seq<Byte>, coded: seq<Byte>, codewords: seq<Byte>)
    requires SizeOf(modules, version)
    requires Carries(modules, DataWalk(version), codewords, mask)
    requires IsInterleaving(codewords, coded, Specs(version, level))
    requires |codewords| == Specs(version, level).TotalCodewords()
    requires IsEncoding(coded, data, version, Specs(version, level)) && Fits(|data|, version, level)
    ensures Scanner.DecodeWith(modules, version, level, mask) == Some((data, level))
  {
    hide Carries, ReadData, Spell, StreamBit, IsInterleaving, IsEncoding, DataWalk, Specs, Sizes, Join, Parse, ReadBytes;
    hide Scanner.Cells, Scanner.BlockSizes;
    SameDataWalk(version);
    SameBlockSizes(version, level);
    var bits := ReadData(modules, DataWalk(version), mask);
    ReadWhatWasPlaced(modules, DataWalk(version), codewords, mask);
    RoomForCodewords(version);
    SpecsFillTheSymbol(version, level);
    var rest := StreamReadsBack(bits, codewords);
    DeinterleaveStream(codewords, coded, Specs(version, level), rest);
    LengthFits(|data|, version, level);
    ParseEncoding(coded, data, version, Specs(version, level));
  }

  // ---- the encoder ----

  function Snapshot(modules: array2<bool>): seq<seq<bool>>
    reads modules
  {
    seq(modules.Length0, y requires 0 <= y < modules.Length0 reads modules =>
      seq(modules.Length1, x requires 0 <= x < modules.Length1 reads modules => modules[y, x]))
  }

  /**
   The smallest symbol that holds the data, in the first of the eight masks to score least;
   reading it gives back the data and the level. A null result is ErrTooLong. The scoring
   rule is a parameter. `tried` holds the eight complete symbols, one per mask, and
   `codewords` the block-coded stream they all carry.
   */
  method Encode(data: seq<Byte>, level: Level, penalty: seq<seq<bool>> -> nat)
    returns (best: Code?, ghost tried: seq<Code>, ghost mask: nat, ghost coded: seq<Byte>, ghost codewords: seq<Byte>)
    ensures best == null <==> forall v :: 1 <= v <= 10 ==> |data| > Scanner.Room(v, level)
    ensures best != null ==>
      && 1 <= best.version <= 10 && |data| <= Scanner.Room(best.version, level)
      && (forall v :: 1 <= v < best.version ==> |data| > Scanner.Room(v, level))
      && Scanner.IsSymbol(best.modules) && Scanner.Decode(best.modules) == Some((data, level))
    ensures best != null ==>
      && IsEncoding(coded, data, best.version, Specs(best.version, level))
      && IsInterleaving(codewords, coded, Specs(best.version, level))
      && Scanner.IsProtected(codewords, best.version, level)
    ensures best != null ==>
      && |tried| == 8 && mask < 8 && best == tried[mask]
      && (forall m :: 0 <= m < 8 ==> IsBuilt(tried[m], best.version, level, m, codewords))
      && (forall m :: 0 <= m < 8 ==> penalty(Snapshot(best.modules)) <= penalty(Snapshot(tried[m].modules)))
      && (forall m :: 0 <= m < mask ==> penalty(Snapshot(best.modules)) < penalty(Snapshot(tried[m].modules)))
  {
    hide Complete, Snapshot, Specs, IsInterleaving, IsEncoding, Scanner.Decode, Scanner.Room, Scanner.IsProtected, Fits;
    forall v | 1 <= v <= 10 ensures Fits(|data|, v, level) <==> |data| <= Scanner.Room(v, level) { FitsIsRoom(|data|, v, level); }
    tried, mask, coded, codewords := [], 0, [], [];
    var choice := ChooseVersion(|data|, level);
    if choice.None? {
      return null, tried, mask, coded, codewords;
    }
    var version := choice.value;
    var spec := Specs(version, level);
    SmallBlocks(version, level);
    var dataCodewords := EncodeData(data, version, spec);
    coded := dataCodewords;
    EncodingLength(coded, data, version, spec);
    var t := new Tables();
    var stream := Interleave(t, dataCodewords, spec);
    codewords := stream;
    ProtectionIsPublished(codewords, coded, version, level);

    best := null;
    var bestPenalty := -1;
    for m := 0 to 8
      invariant |tried| == m && (best == null <==> m == 0)
      invariant stream == codewords
      invariant if m == 0 then mask == 0 && bestPenalty == -1 else mask < m && best == tried[mask]
      invariant m > 0 ==> best != null && bestPenalty == penalty(Snapshot(best.modules))
      invariant forall k :: 0 <= k < m ==> IsBuilt(tried[k], version, level, k, codewords)
      invariant forall k :: 0 <= k < m ==> bestPenalty <= penalty(Snapshot(tried[k].modules))
      invariant forall k :: 0 <= k < mask ==> bestPenalty < penalty(Snapshot(tried[k].modules))
    {
      var c := BuildMatrix(version, level, stream, m);
      var p := penalty(Snapshot(c.modules));
      if bestPenalty < 0 || p < bestPenalty {
        best, bestPenalty := c, p;
        mask := m;
      }
      tried := tried + [c];
    }
    SymbolReadsBack(best.modules, version, level, mask, data, coded, codewords);
  }

  ghost predicate IsBuilt(c: Code, version: nat, level: Level, mask: nat, codewords: seq<Byte>)
    requires ValidVersion(version)
    reads c.modules
  {
    && c.version == version && c.level == level
    && c.modules.Length0 == c.modules.Length1 == Size(version)
    && Complete(c.modules, version, level, mask, codewords)
  }

  lemma SmallBlocks(version: nat, level: Level)
    requires ValidVersion(version)
    ensures Specs(version, level).ecPerBlock <= 30
  {}

  lemma EncodingLength(coded: seq<Byte>, data: seq<Byte>, version: nat, spec: BlockSpec)
    requires IsEncoding(coded, data, version, spec)
    ensures |coded| == spec.DataCodewords()
  {}
}
