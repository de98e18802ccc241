/**
 A scanner for undamaged symbols, written from the layout of the symbol and not from the encoder:
 positions are listed, regions outlined, the reading order and the block sizes computed.
 */
module QrScanner {
  import opened Options
  import opened Bits
  import opened Galois
  import opened QrFormat
  import opened QrData
  import opened QrTiles
  import opened QrBlocks
  import opened QrWalk

  /** The symbol is a square of 21, 25, ... or 57 modules. */
  ghost predicate IsSymbol(modules: array2<bool>) {
    modules.Length0 == modules.Length1 && exists v :: 1 <= v <= 10 && modules.Length0 == 4 * v + 17
  }

  // ---- the format field ----

  /** Where the fifteen bits stand around the upper left finder, the first bit first. */
  const FORMAT_CELLS := [
    Cell(0, 8), Cell(1, 8), Cell(2, 8), Cell(3, 8), Cell(4, 8), Cell(5, 8), Cell(7, 8), Cell(8, 8),
    Cell(8, 7), Cell(8, 5), Cell(8, 4), Cell(8, 3), Cell(8, 2), Cell(8, 1), Cell(8, 0)]

  ghost function FormatField(modules: array2<bool>): (field: seq<bool>)
    requires IsSymbol(modules)
    reads modules
    ensures |field| == 15
  {
    seq(15, k requires 0 <= k < 15 reads modules => modules[FORMAT_CELLS[k].y, FORMAT_CELLS[k].x])
  }

  // ---- the data modules ----

  predicate Near(v: int, c: int) {
    c - 2 <= v <= c + 2
  }

  /**
   Inside an alignment pattern: from version 2 at the lower right, and from version 7 also half way
   along each side and in the middle.
   */
  predicate InAlignment(version: nat, x: int, y: int) {
    var last, half := 4 * version + 10, 2 * version + 8;
    || (version >= 2 && Near(x, last) && Near(y, last))
    || (version >= 7 && Near(x, half) && (Near(y, 6) || Near(y, half) || Near(y, last)))
    || (version >= 7 && Near(y, half) && (Near(x, 6) || Near(x, last)))
  }

  /**
   Not for data: the three corners with their separators and format fields, the timing row and
   column, the alignment patterns, and the two version fields.
   */
  predicate Functional(version: nat, x: int, y: int) {
    var size := 4 * version + 17;
    || x == 6 || y == 6
    || (x <= 8 && y <= 8) || (x >= size - 8 && y <= 8) || (x <= 8 && y >= size - 8)
    || InAlignment(version, x, y)
    || (version >= 7 && size - 11 <= x && y <= 5) || (version >= 7 && x <= 5 && size - 11 <= y)
  }

  /**
   The k-th module in reading order: two columns at a time from the right, upward and downward
   in turn, stepping over column 6.
   */
  function Nth(size: nat, k: nat): Cell
    requires 0 < size
  {
    var pair, row := k / (2 * size), k % (2 * size) / 2;
    var right := if size - 1 - 2 * pair > 6 then size - 1 - 2 * pair else size - 2 - 2 * pair;
    Cell(right - k % 2, if pair % 2 == 0 then size - 1 - row else row)
  }

  /** The data modules among the first n, in reading order. */
  function DataModules(version: nat, n: nat): seq<Cell> {
    if n == 0 then []
    else
      var c := Nth(4 * version + 17, n - 1);
      DataModules(version, n - 1) + if Functional(version, c.x, c.y) then [] else [c]
  }

  /** All of them. */
  function Cells(version: nat): seq<Cell> {
    DataModules(version, (4 * version + 17) * (4 * version + 16))
  }

  // ---- the codewords ----

  /** How many data bytes a symbol holds, for versions 1 to 10. */
  const BYTES_L: seq<nat> := [19, 34, 55, 80, 108, 136, 156, 194, 232, 274]
  const BYTES_M: seq<nat> := [16, 28, 44, 64, 86, 108, 124, 154, 182, 216]
  const BYTES_Q: seq<nat> := [13, 22, 34, 48, 62, 76, 88, 110, 132, 154]
  const BYTES_H: seq<nat> := [9, 16, 26, 36, 46, 60, 66, 86, 100, 122]

  /** And in how many blocks. */
  const BLOCKS_L: seq<nat> := [1, 1, 1, 1, 1, 2, 2, 2, 2, 4]
  const BLOCKS_M: seq<nat> := [1, 1, 1, 2, 2, 4, 4, 4, 5, 5]
  const BLOCKS_Q: seq<nat> := [1, 1, 2, 2, 4, 4, 6, 6, 8, 8]
  const BLOCKS_H: seq<nat> := [1, 1, 2, 4, 4, 4, 5, 6, 8, 8]

  function DataBytes(version: nat, level: Level): nat
    requires 1 <= version <= 10
  {
    match level
    case LevelL => BYTES_L[version - 1]
    case LevelM => BYTES_M[version - 1]
    case LevelQ => BYTES_Q[version - 1]
    case LevelH => BYTES_H[version - 1]
  }

  function BlockCount(version: nat, level: Level): nat
    requires 1 <= version <= 10
  {
    match level
    case LevelL => BLOCKS_L[version - 1]
    case LevelM => BLOCKS_M[version - 1]
    case LevelQ => BLOCKS_Q[version - 1]
    case LevelH => BLOCKS_H[version - 1]
  }

  /** The data is divided as evenly as it can be, the longer blocks last. */
  function BlockSizes(version: nat, level: Level): (sizes: seq<nat>)
    requires 1 <= version <= 10
    ensures |sizes| == BlockCount(version, level)
  {
    var d, n := DataBytes(version, level), BlockCount(version, level);
    if n == 0 then [] else seq(n, b => if b < n - d % n then d / n else d / n + 1)
  }

  /** How many bytes a message may have: what is left beside mode, length and terminator. */
  function Room(version: nat, level: Level): int
    requires 1 <= version <= 10
  {
    DataBytes(version, level) - if version <= 9 then 2 else 3
  }

  /** The blocks of the stream are protected by all the codewords that follow the data. */
  ghost predicate IsProtected(stream: seq<Byte>, version: nat, level: Level)
    requires 1 <= version <= 10
  {
    var d, k := DataBytes(version, level), BlockCount(version, level);
    k > 0 && |stream| >= d && AllProtected(stream, Deinterleave(stream, BlockSizes(version, level)), d, k, (|stream| - d) / k)
  }

  // ---- the whole ----

  ghost predicate InGridOf(modules: array2<bool>, cells: seq<Cell>) {
    InGrid(cells, modules.Length0) && modules.Length0 == modules.Length1
  }

  /**
   Reads the level and mask from the format field, walks the data modules, turns over those the
   mask inverts, puts the blocks back together and reads the message. Error correction is not
   consulted: the symbol is undamaged.
   */
  ghost function Decode(modules: array2<bool>): Option<(seq<Byte>, Level)>
    requires IsSymbol(modules)
    reads modules
  {
    var version := (modules.Length0 - 17) / 4;
    var (level, mask) := ReadFormat(FormatField(modules));
    DecodeWith(modules, version, level, mask)
  }

  ghost function DecodeWith(modules: array2<bool>, version: nat, level: Level, mask: nat): Option<(seq<Byte>, Level)>
    requires 1 <= version <= 10
    reads modules
  {
    var cells := Cells(version);
    if !InGridOf(modules, cells) then None
    else
      var bits := ReadData(modules, cells, mask);
      var stream := ReadBytes(bits, |bits| / 8);
      var data := Join(Deinterleave(stream, BlockSizes(version, level)));
      match Parse(Spell(data), version)
      case None => None
      case Some(bytes) => Some((bytes, level))
  }
}
