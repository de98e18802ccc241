/** Symbol layout: function patterns in the order they are drawn, and what they leave for data. */
module QrMatrix {
  import opened Options
  import opened Galois
  import opened QrFormat
  import opened QrData
  import opened QrWalk

  function Size(version: nat): nat { version * 4 + 17 }

  predicate ValidVersion(version: nat) { 1 <= version <= 10 }

  function Abs(v: int): nat { if v < 0 then -v else v }

  // ---- the layers ----

  /** The colour a finder with origin (ox, oy), or its light separator, gives a module. */
  function FinderAt(ox: int, oy: int, x: int, y: int): Option<bool> {
    var dx, dy := x - ox, y - oy;
    if -1 <= dx <= 7 && -1 <= dy <= 7 then
      var inner := 2 <= dx <= 4 && 2 <= dy <= 4;
      var edge := 0 <= dx <= 6 && 0 <= dy <= 6 && (dx == 0 || dx == 6 || dy == 0 || dy == 6);
      Some(inner || edge)
    else None
  }

  function Finder(size: int, x: int, y: int): Option<bool> {
    if FinderAt(0, size - 7, x, y).Some? then FinderAt(0, size - 7, x, y)
    else if FinderAt(size - 7, 0, x, y).Some? then FinderAt(size - 7, 0, x, y)
    else FinderAt(0, 0, x, y)
  }

  function Timing(size: int, x: int, y: int): Option<bool> {
    if x == 6 && 8 <= y < size - 8 then Some(y % 2 == 0)
    else if y == 6 && 8 <= x < size - 8 then Some(x % 2 == 0)
    else None
  }

  function Centres(version: nat): seq<int>
    requires ValidVersion(version)
  {
    if version == 1 then [] else if version == 2 then [6, 18] else if version == 3 then [6, 22]
    else if version == 4 then [6, 26] else if version == 5 then [6, 30] else if version == 6 then [6, 34]
    else if version == 7 then [6, 22, 38] else if version == 8 then [6, 24, 42]
    else if version == 9 then [6, 26, 46] else [6, 28, 50]
  }

  predicate Corner(size: int, cx: int, cy: int) {
    (cx == 6 && cy == 6) || (cx == 6 && cy == size - 7) || (cx == size - 7 && cy == 6)
  }

  function RingDark(cx: int, cy: int, x: int, y: int): bool {
    (if Abs(x - cx) < Abs(y - cy) then Abs(y - cy) else Abs(x - cx)) != 1
  }

  /** The index of the alignment coordinate within two modules of v, or -1. */
  function Near(centres: seq<int>, v: int): (k: int)
    ensures -1 <= k < |centres|
  {
    if |centres| > 0 && Abs(v - centres[0]) <= 2 then 0
    else if |centres| > 1 && Abs(v - centres[1]) <= 2 then 1
    else if |centres| > 2 && Abs(v - centres[2]) <= 2 then 2
    else -1
  }

  lemma NearInverts(version: nat, v: int, k: nat)
    requires ValidVersion(version) && k < |Centres(version)|
    ensures Near(Centres(version), v) == k <==> Abs(v - Centres(version)[k]) <= 2
    ensures 6 <= Centres(version)[k] <= Size(version) - 7
  {}

  function Alignment(version: nat, x: int, y: int): Option<bool>
    requires ValidVersion(version)
  {
    var centres := Centres(version);
    var j, i := Near(centres, x), Near(centres, y);
    if i >= 0 && j >= 0 && !Corner(Size(version), centres[j], centres[i])
    then Some(RingDark(centres[j], centres[i], x, y))
    else None
  }

  function FormatPos1(i: int): Cell {
    if i < 6 then Cell(8, i) else if i == 6 then Cell(8, 7) else if i == 7 then Cell(8, 8)
    else if i == 8 then Cell(7, 8) else Cell(14 - i, 8)
  }

  function FormatPos2(i: int, size: int): Cell {
    if i < 8 then Cell(size - 1 - i, 8) else Cell(8, size - 15 + i)
  }

  /** Which format bit a module carries, or -1. */
  function FormatIndex(size: int, x: int, y: int): int {
    if x == 8 && 0 <= y <= 5 then y else if x == 8 && y == 7 then 6 else if x == 8 && y == 8 then 7
    else if x == 7 && y == 8 then 8 else if y == 8 && 0 <= x <= 5 then 14 - x
    else if y == 8 && size - 8 <= x < size then size - 1 - x
    else if x == 8 && size - 7 <= y < size then y - size + 15
    else -1
  }

  lemma FormatIndexInverts(size: int, x: int, y: int, i: int)
    requires 21 <= size && 0 <= i < 15
    ensures FormatIndex(size, x, y) == i <==> Cell(x, y) == FormatPos1(i) || Cell(x, y) == FormatPos2(i, size)
  {}

  /** Which version bit a module carries, or -1. */
  function VersionIndex(size: int, x: int, y: int): int {
    if 0 <= x < 6 && size - 11 <= y < size - 8 then 3 * x + y - (size - 11)
    else if 0 <= y < 6 && size - 11 <= x < size - 8 then 3 * y + x - (size - 11)
    else -1
  }

  /** The two fields a symbol carries. */
  datatype Fields = Fields(format: seq<bool>, version: seq<bool>)

  /** Bit i of a field, counted from its low end. */
  function FieldBit(field: seq<bool>, i: int): bool {
    0 <= i < |field| && field[|field| - 1 - i]
  }

  /**
   The colour of a module after the first `layers` layers, later ones on top;
   None where nothing is drawn. With all six this is the whole function pattern.
   */
  function Drawn(layers: nat, version: nat, f: Fields, x: int, y: int): Option<bool>
    requires ValidVersion(version)
  {
    var size := Size(version);
    if layers >= 6 && version >= 7 && VersionIndex(size, x, y) >= 0 then Some(FieldBit(f.version, VersionIndex(size, x, y)))
    else if layers >= 5 && FormatIndex(size, x, y) >= 0 then Some(FieldBit(f.format, FormatIndex(size, x, y)))
    else if layers >= 4 && x == 8 && y == size - 8 then Some(true)
    else if layers >= 3 && Alignment(version, x, y).Some? then Alignment(version, x, y)
    else if layers >= 2 && Timing(size, x, y).Some? then Timing(size, x, y)
    else if layers >= 1 then Finder(size, x, y)
    else None
  }

  /** A module left for data. The fields' contents play no part in it. */
  predicate IsData(version: nat, x: int, y: int)
    requires ValidVersion(version)
  {
    Drawn(6, version, Fields([], []), x, y).None?
  }

  lemma Column6(version: nat, y: int)
    requires ValidVersion(version) && 0 <= y < Size(version)
    ensures !IsData(version, 6, y)
  {}

  // ---- drawing ----

  ghost predicate Square(modules: array2<bool>, reserved: array2<bool>, size: int) {
    && modules != reserved
    && modules.Length0 == modules.Length1 == reserved.Length0 == reserved.Length1 == size
  }

  /** What has been drawn at a module so far. */
  ghost function Seen(modules: array2<bool>, reserved: array2<bool>, x: int, y: int): Option<bool>
    requires modules.Length0 == modules.Length1 == reserved.Length0 == reserved.Length1
    requires 0 <= x < modules.Length0 && 0 <= y < modules.Length0
    reads modules, reserved
  {
    if reserved[y, x] then Some(modules[y, x]) else None
  }

  ghost predicate ShowsLayers(modules: array2<bool>, reserved: array2<bool>, layers: nat, version: nat, f: Fields)
    requires ValidVersion(version) && Square(modules, reserved, Size(version))
    reads modules, reserved
  {
    forall x, y :: 0 <= x < Size(version) && 0 <= y < Size(version) ==>
      Seen(modules, reserved, x, y) == Drawn(layers, version, f, x, y)
  }

  /** The `set` closure of the source. */
  method Set(modules: array2<bool>, reserved: array2<bool>, size: int, x: int, y: int, dark: bool)
    requires Square(modules, reserved, size) && 0 <= x < size && 0 <= y < size
    modifies modules, reserved
    ensures Seen(modules, reserved, x, y) == Some(dark)
    ensures forall x', y' :: 0 <= x' < size && 0 <= y' < size && (x' != x || y' != y) ==>
      Seen(modules, reserved, x', y') == old(Seen(modules, reserved, x', y'))
  {
    modules[y, x] := dark;
    reserved[y, x] := true;
  }

  method DrawFinder(modules: array2<bool>, reserved: array2<bool>, size: int, ox: int, oy: int)
    requires Square(modules, reserved, size)
    modifies modules, reserved
    ensures forall x, y :: 0 <= x < size && 0 <= y < size ==>
      if FinderAt(ox, oy, x, y).Some? then Seen(modules, reserved, x, y) == FinderAt(ox, oy, x, y)
      else Seen(modules, reserved, x, y) == old(Seen(modules, reserved, x, y))
  {
    for dy := -1 to 8
      invariant forall x, y :: 0 <= x < size && 0 <= y < size ==>
        if FinderAt(ox, oy, x, y).Some? && y - oy < dy then Seen(modules, reserved, x, y) == FinderAt(ox, oy, x, y)
        else Seen(modules, reserved, x, y) == old(Seen(modules, reserved, x, y))
    {
      for dx := -1 to 8
        invariant forall x, y :: 0 <= x < size && 0 <= y < size ==>
          if FinderAt(ox, oy, x, y).Some? && (y - oy < dy || (y - oy == dy && x - ox < dx))
          then Seen(modules, reserved, x, y) == FinderAt(ox, oy, x, y)
          else Seen(modules, reserved, x, y) == old(Seen(modules, reserved, x, y))
      {
        var x, y := ox + dx, oy + dy;
        if x < 0 || y < 0 || x >= size || y >= size {
          continue;
        }
        var inner := dx >= 2 && dx <= 4 && dy >= 2 && dy <= 4;
        var edge := dx >= 0 && dx <= 6 && dy >= 0 && dy <= 6 &&
          (dx == 0 || dx == 6 || dy == 0 || dy == 6);
        Set(modules, reserved, size, x, y, inner || edge);
      }
    }
  }

  method DrawFinders(modules: array2<bool>, reserved: array2<bool>, version: nat, ghost f: Fields)
    requires ValidVersion(version) && Square(modules, reserved, Size(version))
    requires ShowsLayers(modules, reserved, 0, version, f)
    modifies modules, reserved
    ensures ShowsLayers(modules, reserved, 1, version, f)
  {
    var size := Size(version);
    hide FinderAt;
    DrawFinder(modules, reserved, size, 0, 0);
    DrawFinder(modules, reserved, size, size - 7, 0);
    DrawFinder(modules, reserved, size, 0, size - 7);
  }

  method DrawTiming(modules: array2<bool>, reserved: array2<bool>, version: nat, ghost f: Fields)
    requires ValidVersion(version) && Square(modules, reserved, Size(version))
    requires ShowsLayers(modules, reserved, 1, version, f)
    modifies modules, reserved
    ensures ShowsLayers(modules, reserved, 2, version, f)
  {
    hide Finder, Seen;
    var size := Size(version);
    for i := 8 to size - 8
      invariant forall x, y :: 0 <= x < size && 0 <= y < size ==>
        Seen(modules, reserved, x, y) == Drawn(if Timing(size, x, y).Some? && x + y - 6 < i then 2 else 1, version, f, x, y)
    {
      var dark := i % 2 == 0;
      Set(modules, reserved, size, i, 6, dark);
      Set(modules, reserved, size, 6, i, dark);
    }
  }

  method DrawAlignment(modules: array2<bool>, reserved: array2<bool>, size: int, cx: int, cy: int)
    requires Square(modules, reserved, size) && 2 <= cx < size - 2 && 2 <= cy < size - 2
    modifies modules, reserved
    ensures forall x, y :: 0 <= x < size && 0 <= y < size ==>
      if Abs(x - cx) <= 2 && Abs(y - cy) <= 2 then Seen(modules, reserved, x, y) == Some(RingDark(cx, cy, x, y))
      else Seen(modules, reserved, x, y) == old(Seen(modules, reserved, x, y))
  {
    for dy := -2 to 3
      invariant forall x, y :: 0 <= x < size && 0 <= y < size ==>
        if Abs(x - cx) <= 2 && Abs(y - cy) <= 2 && y - cy < dy
        then Seen(modules, reserved, x, y) == Some(RingDark(cx, cy, x, y))
        else Seen(modules, reserved, x, y) == old(Seen(modules, reserved, x, y))
    {
      for dx := -2 to 3
        invariant forall x, y :: 0 <= x < size && 0 <= y < size ==>
          if Abs(x - cx) <= 2 && Abs(y - cy) <= 2 && (y - cy < dy || (y - cy == dy && x - cx < dx))
          then Seen(modules, reserved, x, y) == Some(RingDark(cx, cy, x, y))
          else Seen(modules, reserved, x, y) == old(Seen(modules, reserved, x, y))
      {
        var ring := if Abs(dx) < Abs(dy) then Abs(dy) else Abs(dx);
        Set(modules, reserved, size, cx + dx, cy + dy, ring != 1);
      }
    }
  }

  method DrawAlignments(modules: array2<bool>, reserved: array2<bool>, version: nat, ghost f: Fields)
    requires ValidVersion(version) && Square(modules, reserved, Size(version))
    requires ShowsLayers(modules, reserved, 2, version, f)
    modifies modules, reserved
    ensures ShowsLayers(modules, reserved, 3, version, f)
  {
    hide Finder, Timing, Centres, RingDark, Near, Seen;
    var size, centres := Size(version), Centres(version);
    for i := 0 to |centres|
      invariant forall x, y :: 0 <= x < size && 0 <= y < size ==>
        Seen(modules, reserved, x, y) == Drawn(if Near(centres, y) < i then 3 else 2, version, f, x, y)
    {
      for j := 0 to |centres|
        invariant forall x, y :: 0 <= x < size && 0 <= y < size ==>
          Seen(modules, reserved, x, y) == Drawn(if Near(centres, y) < i || (Near(centres, y) == i && Near(centres, x) < j) then 3 else 2, version, f, x, y)
      {
        var x0, y0 := centres[j], centres[i];
        NearInverts(version, 0, i);
        NearInverts(version, 0, j);
        if Corner(size, x0, y0) {
          continue;
        }
        forall v ensures Near(centres, v) == i <==> Abs(v - y0) <= 2 { NearInverts(version, v, i); }
        forall v ensures Near(centres, v) == j <==> Abs(v - x0) <= 2 { NearInverts(version, v, j); }
        DrawAlignment(modules, reserved, size, x0, y0);
      }
    }
  }

  method DrawDark(modules: array2<bool>, reserved: array2<bool>, version: nat, ghost f: Fields)
    requires ValidVersion(version) && Square(modules, reserved, Size(version))
    requires ShowsLayers(modules, reserved, 3, version, f)
    modifies modules, reserved
    ensures ShowsLayers(modules, reserved, 4, version, f)
  {
    hide Finder, Timing, Alignment, Seen, FormatIndex;
    Set(modules, reserved, Size(version), 8, Size(version) - 8, true);
  }

  method DrawFormat(modules: array2<bool>, reserved: array2<bool>, version: nat, f: Fields)
    requires ValidVersion(version) && Square(modules, reserved, Size(version)) && |f.format| == 15
    requires ShowsLayers(modules, reserved, 4, version, f)
    modifies modules, reserved
    ensures ShowsLayers(modules, reserved, 5, version, f)
  {
    hide Finder, Timing, Alignment, Seen, FormatIndex, FormatPos1, FormatPos2;
    var size := Size(version);
    for i := 0 to 15
      invariant forall x, y :: 0 <= x < size && 0 <= y < size ==>
        Seen(modules, reserved, x, y) == Drawn(if FormatIndex(size, x, y) < i then 5 else 4, version, f, x, y)
    {
      var dark := f.format[14 - i];
      FormatInGrid(size, i);
      forall x, y ensures FormatIndex(size, x, y) == i <==> Cell(x, y) == FormatPos1(i) || Cell(x, y) == FormatPos2(i, size) {
        FormatIndexInverts(size, x, y, i);
      }
      var p1, p2 := FormatPos1(i), FormatPos2(i, size);
      Set(modules, reserved, size, p1.x, p1.y, dark);
      Set(modules, reserved, size, p2.x, p2.y, dark);
    }
    forall x, y | 0 <= x < size && 0 <= y < size ensures FormatIndex(size, x, y) < 15 { FormatIndexRange(size, x, y); }
  }

  lemma FormatInGrid(size: int, i: int)
    requires 21 <= size && 0 <= i < 15
    ensures 0 <= FormatPos1(i).x < size && 0 <= FormatPos1(i).y < size
    ensures 0 <= FormatPos2(i, size).x < size && 0 <= FormatPos2(i, size).y < size
  {}

  lemma FormatIndexRange(size: int, x: int, y: int)
    ensures -1 <= FormatIndex(size, x, y) < 15
  {}

  method DrawVersion(modules: array2<bool>, reserved: array2<bool>, version: nat, f: Fields)
    requires ValidVersion(version) && Square(modules, reserved, Size(version))
    requires version >= 7 ==> |f.version| == 18
    requires ShowsLayers(modules, reserved, 5, version, f)
    modifies modules, reserved
    ensures ShowsLayers(modules, reserved, 6, version, f)
  {
    hide Finder, Timing, Alignment, FormatIndex, Seen;
    var size := Size(version);
    if version >= 7 {
      for i := 0 to 18
        invariant forall x, y :: 0 <= x < size && 0 <= y < size ==>
          Seen(modules, reserved, x, y) == Drawn(if VersionIndex(size, x, y) < i then 6 else 5, version, f, x, y)
      {
        var dark := f.version[17 - i];
        var x, y := i / 3, size - 11 + i % 3;
        Set(modules, reserved, size, x, y, dark);
        Set(modules, reserved, size, y, x, dark);
      }
    }
  }
}
