/** Every symbol has room for its codewords: the function patterns, covered by rectangles, leave enough. */
module QrCapacity {
  import opened Sequences
  import opened QrFormat
  import opened QrData
  import opened QrWalk
  import opened QrMatrix

  // ---- counting cells ----

  function RowCells(x0: int, w: nat, y: int): (s: set<Cell>)
    ensures |s| == w && forall c :: c in s <==> x0 <= c.x < x0 + w && c.y == y
  {
    if w == 0 then {} else RowCells(x0, w - 1, y) + {Cell(x0 + w - 1, y)}
  }

  function Rect(x0: int, w: nat, y0: int, h: nat): (s: set<Cell>)
    ensures |s| == w * h && forall c :: c in s <==> x0 <= c.x < x0 + w && y0 <= c.y < y0 + h
  {
    if h == 0 then {} else
      assert Rect(x0, w, y0, h - 1) !! RowCells(x0, w, y0 + h - 1);
      assert w * h == w * (h - 1) + w;
      Rect(x0, w, y0, h - 1) + RowCells(x0, w, y0 + h - 1)
  }

  function Grid(version: nat): set<Cell> {
    Rect(0, Size(version), 0, Size(version))
  }

  ghost function DataSet(version: nat): set<Cell>
    requires ValidVersion(version)
  {
    set c | c in Grid(version) && IsData(version, c.x, c.y)
  }

  // ---- the cover ----

  predicate InRect(x0: int, w: nat, y0: int, h: nat, x: int, y: int) {
    x0 <= x < x0 + w && y0 <= y < y0 + h
  }

  /** Finders, separators, format fields and the dark module, then the two timing runs between them. */
  predicate InCorners(size: nat, x: int, y: int)
    requires 21 <= size
  {
    || InRect(0, 9, 0, 9, x, y) || InRect(size - 8, 8, 0, 9, x, y) || InRect(0, 9, size - 8, 8, x, y)
    || InRect(6, 1, 9, size - 17, x, y) || InRect(9, size - 17, 6, 1, x, y)
  }

  /** Alignment patterns, less the rows and columns the timing runs already account for. */
  predicate InAlignments(version: nat, x: int, y: int)
    requires ValidVersion(version)
  {
    var c := Size(version) - 7;
    if version == 1 then false
    else if version < 7 then InRect(c - 2, 5, c - 2, 5, x, y)
    else
      var m := Centres(version)[1];
      || InRect(m - 2, 5, 4, 2, x, y) || InRect(m - 2, 5, 7, 2, x, y)
      || InRect(4, 2, m - 2, 5, x, y) || InRect(7, 2, m - 2, 5, x, y)
      || InRect(m - 2, 5, m - 2, 5, x, y) || InRect(c - 2, 5, m - 2, 5, x, y)
      || InRect(m - 2, 5, c - 2, 5, x, y) || InRect(c - 2, 5, c - 2, 5, x, y)
  }

  predicate InVersions(version: nat, x: int, y: int)
    requires ValidVersion(version)
  {
    version >= 7 && (InRect(0, 6, Size(version) - 11, 3, x, y) || InRect(Size(version) - 11, 3, 0, 6, x, y))
  }

  lemma CornersCount(size: nat) returns (s: set<Cell>)
    requires 21 <= size
    ensures |s| <= 225 + 2 * (size - 17) && forall x, y :: InCorners(size, x, y) ==> Cell(x, y) in s
  {
    hide Rect;
    s := Rect(0, 9, 0, 9) + Rect(size - 8, 8, 0, 9) + Rect(0, 9, size - 8, 8)
      + Rect(6, 1, 9, size - 17) + Rect(9, size - 17, 6, 1);
  }

  lemma ThreeCentres(version: nat)
    requires ValidVersion(version)
    ensures version >= 7 ==> |Centres(version)| == 3
  {}

  lemma AlignmentsCount(version: nat) returns (s: set<Cell>)
    requires ValidVersion(version)
    ensures |s| <= if version == 1 then 0 else if version < 7 then 25 else 140
    ensures forall x, y :: InAlignments(version, x, y) ==> Cell(x, y) in s
  {
    hide Rect, Centres;
    ThreeCentres(version);
    var c := Size(version) - 7;
    if version == 1 {
      s := {};
    } else if version < 7 {
      s := Rect(c - 2, 5, c - 2, 5);
    } else {
      var m := Centres(version)[1];
      var s1 := HalfPatterns(m);
      var s2 := FullPatterns(m, c);
      s := s1 + s2;
    }
  }

  lemma HalfPatterns(m: int) returns (s: set<Cell>)
    ensures |s| <= 40
    ensures forall x, y ::
      InRect(m - 2, 5, 4, 2, x, y) || InRect(m - 2, 5, 7, 2, x, y) || InRect(4, 2, m - 2, 5, x, y) || InRect(7, 2, m - 2, 5, x, y)
      ==> Cell(x, y) in s
  {
    hide Rect;
    s := Rect(m - 2, 5, 4, 2) + Rect(m - 2, 5, 7, 2) + Rect(4, 2, m - 2, 5) + Rect(7, 2, m - 2, 5);
  }

  lemma FullPatterns(m: int, c: int) returns (s: set<Cell>)
    ensures |s| <= 100
    ensures forall x, y ::
      InRect(m - 2, 5, m - 2, 5, x, y) || InRect(c - 2, 5, m - 2, 5, x, y) || InRect(m - 2, 5, c - 2, 5, x, y) || InRect(c - 2, 5, c - 2, 5, x, y)
      ==> Cell(x, y) in s
  {
    hide Rect;
    s := Rect(m - 2, 5, m - 2, 5) + Rect(c - 2, 5, m - 2, 5) + Rect(m - 2, 5, c - 2, 5) + Rect(c - 2, 5, c - 2, 5);
  }

  lemma VersionsCount(version: nat) returns (s: set<Cell>)
    requires ValidVersion(version)
    ensures |s| <= if version < 7 then 0 else 36
    ensures forall x, y :: InVersions(version, x, y) ==> Cell(x, y) in s
  {
    hide Rect;
    s := if version < 7 then {} else Rect(0, 6, Size(version) - 11, 3) + Rect(Size(version) - 11, 3, 0, 6);
  }

  lemma AlignmentIsCovered(version: nat, x: int, y: int)
    requires ValidVersion(version) && Alignment(version, x, y).Some?
    ensures InCorners(Size(version), x, y) || InAlignments(version, x, y)
  {
    hide RingDark;
    var k := Centres(version);
    assert version < 7 ==> |k| <= 2;
    assert |k| == 2 ==> k[0] == 6 && k[1] == Size(version) - 7;
    assert |k| == 3 ==> k[0] == 6 && k[2] == Size(version) - 7 && 22 <= k[1] <= Size(version) - 23;
    hide Centres;
  }

  /** Every function module lies in one of the rectangles. */
  lemma PatternIsCovered(version: nat, x: int, y: int)
    requires ValidVersion(version) && 0 <= x < Size(version) && 0 <= y < Size(version)
    requires !IsData(version, x, y)
    ensures InCorners(Size(version), x, y) || InAlignments(version, x, y) || InVersions(version, x, y)
  {
    hide Alignment, InAlignments;
    if Alignment(version, x, y).Some? { AlignmentIsCovered(version, x, y); }
  }

  /** Total codewords per version, whatever the level: the capacity table of ISO/IEC 18004. */
  function Capacity(version: nat): nat {
    if version <= 1 then 26 else if version == 2 then 44 else if version == 3 then 70
    else if version == 4 then 100 else if version == 5 then 134 else if version == 6 then 172
    else if version == 7 then 196 else if version == 8 then 242 else if version == 9 then 292 else 346
  }

  lemma SpecsFillTheSymbol(version: nat, level: Level)
    requires ValidVersion(version)
    ensures Specs(version, level).TotalCodewords() == Capacity(version)
  {}

  lemma DataSetIsLargeEnough(version: nat)
    requires ValidVersion(version)
    ensures |DataSet(version)| >= 8 * Capacity(version)
  {
    var all, data := Grid(version), DataSet(version);
    var s1 := CornersCount(Size(version));
    var s2 := AlignmentsCount(version);
    var s3 := VersionsCount(version);
    hide InCorners, InAlignments, InVersions, IsData, Rect;
    forall c | c in all - data ensures c in s1 + s2 + s3 {
      PatternIsCovered(version, c.x, c.y);
      assert c == Cell(c.x, c.y);
    }
    SubsetSize(all - data, s1 + s2 + s3);
    assert data <= all;
    assert |all - data| == |all| - |data|;
    AreaOf(version);
  }

  lemma AreaOf(version: nat)
    requires ValidVersion(version)
    ensures
      var size := Size(version);
      size * size - 225 - 2 * (size - 17) - (if version == 1 then 0 else if version < 7 then 25 else 140)
        - (if version < 7 then 0 else 36) >= 8 * Capacity(version)
  {
    assert version == 1 || version == 2 || version == 3 || version == 4 || version == 5
      || version == 6 || version == 7 || version == 8 || version == 9 || version == 10;
  }

  lemma {:induction false} SubsetSize(a: set<Cell>, b: set<Cell>)
    requires a <= b
    ensures |a| <= |b|
  {
    assert b == a + (b - a);
  }

  // ---- data cells along the walk ----

  ghost function DataCells(w: seq<Cell>, version: nat): (f: seq<Cell>)
    requires ValidVersion(version)
    ensures forall c :: c in f <==> c in w && IsData(version, c.x, c.y)
  {
    if w == [] then []
    else
      var c := w[|w| - 1];
      DataCells(w[..|w| - 1], version) + if IsData(version, c.x, c.y) then [c] else []
  }

  lemma {:induction false} DataCellsDistinct(w: seq<Cell>, version: nat)
    requires ValidVersion(version) && Distinct(w)
    ensures Distinct(DataCells(w, version))
  {
    if w != [] { DataCellsDistinct(w[..|w| - 1], version); }
  }

  /** The walk over a symbol's data modules. */
  ghost function DataWalk(version: nat): (cells: seq<Cell>)
    requires ValidVersion(version)
    ensures InGrid(cells, Size(version))
  {
    WalkIsComplete(Size(version));
    var cells := DataCells(FullWalk(Size(version)), version);
    assert forall i :: 0 <= i < |cells| ==> cells[i] in cells;
    cells
  }

  /** It meets each data module once, and has room for every bit of the codewords. */
  lemma RoomForCodewords(version: nat)
    requires ValidVersion(version)
    ensures Distinct(DataWalk(version))
    ensures forall c :: c in DataWalk(version) <==> c in DataSet(version)
    ensures |DataWalk(version)| >= 8 * Capacity(version)
  {
    hide IsData, DataCells, Walk, Rect, Distinct, Capacity;
    var w := FullWalk(Size(version));
    WalkIsComplete(Size(version));
    DataCellsDistinct(w, version);
    forall c ensures c in DataCells(w, version) <==> c in DataSet(version) {
      if c in Grid(version) && c.x == 6 { Column6(version, c.y); }
    }
    CountDistinct(DataCells(w, version), DataSet(version));
    DataSetIsLargeEnough(version);
  }
}
