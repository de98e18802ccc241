/** What a symbol looks like, whatever it carries: its patterns as pictures, and where its fields stand. */
module QrPictures {
  import opened Options
  import opened QrFormat
  import opened QrWalk
  import opened QrMatrix
  import opened QrReading
  import Scanner = QrScanner

  /** The upper left finder with its light separator. */
  const FINDER := [
    "#######.",
    "#.....#.",
    "#.###.#.",
    "#.###.#.",
    "#.###.#.",
    "#.....#.",
    "#######.",
    "........"]

  const ALIGNMENT := [
    "#####",
    "#...#",
    "#.#.#",
    "#...#",
    "#####"]

  predicate FinderDark(x: int, y: int)
    requires 0 <= x < 8 && 0 <= y < 8
  {
    FINDER[y][x] == '#'
  }

  predicate AlignmentDark(x: int, y: int)
    requires 0 <= x < 5 && 0 <= y < 5
  {
    ALIGNMENT[y][x] == '#'
  }

  ghost predicate SizeOf(modules: array2<bool>, version: nat) {
    1 <= version <= 10 && modules.Length0 == modules.Length1 == 4 * version + 17
  }

  /** A finder in three corners, turned so that the separators face inward. */
  ghost predicate HasFinders(modules: array2<bool>, version: nat)
    requires SizeOf(modules, version)
    reads modules
  {
    var size := 4 * version + 17;
    forall x, y :: 0 <= x < 8 && 0 <= y < 8 ==>
      && modules[y, x] == FinderDark(x, y)
      && modules[y, size - 1 - x] == FinderDark(x, y)
      && modules[size - 1 - y, x] == FinderDark(x, y)
  }

  /** Dark and light in turn along row and column 6. */
  ghost predicate HasTiming(modules: array2<bool>, version: nat)
    requires SizeOf(modules, version)
    reads modules
  {
    forall i :: 8 <= i < 4 * version + 9 ==> modules[6, i] == (i % 2 == 0) && modules[i, 6] == (i % 2 == 0)
  }

  ghost predicate HasAlignment(modules: array2<bool>, version: nat, cx: nat, cy: nat)
    requires SizeOf(modules, version) && 2 <= cx < 4 * version + 15 && 2 <= cy < 4 * version + 15
    reads modules
  {
    forall x, y :: 0 <= x < 5 && 0 <= y < 5 ==> modules[cy - 2 + y, cx - 2 + x] == AlignmentDark(x, y)
  }

  /** At the lower right, and from version 7 half way along each side and in the middle. */
  ghost predicate HasAlignments(modules: array2<bool>, version: nat)
    requires SizeOf(modules, version)
    reads modules
  {
    var last, half := 4 * version + 10, 2 * version + 8;
    && (version >= 2 ==> HasAlignment(modules, version, last, last))
    && (version >= 7 ==>
      && HasAlignment(modules, version, half, 6) && HasAlignment(modules, version, half, half)
      && HasAlignment(modules, version, half, last) && HasAlignment(modules, version, 6, half)
      && HasAlignment(modules, version, last, half))
  }

  /** The format field again, up the left side from the bottom and then along the top to the right. */
  ghost predicate HasFormatTwice(modules: array2<bool>, version: nat)
    requires SizeOf(modules, version)
    reads modules
  {
    var size := 4 * version + 17;
    forall k :: 0 <= k < 15 ==>
      modules[Scanner.FORMAT_CELLS[k].y, Scanner.FORMAT_CELLS[k].x]
        == if k < 7 then modules[size - 1 - k, 8] else modules[8, size - 15 + k]
  }

  /** The version field in the block at the lower left, from its last module, column by column from the right. */
  ghost function VersionField(modules: array2<bool>, version: nat): (field: seq<bool>)
    requires SizeOf(modules, version)
    reads modules
    ensures |field| == 18
  {
    seq(18, k requires 0 <= k < 18 reads modules => modules[4 * version + 8 - k % 3, 5 - k / 3])
  }

  /** And mirrored at the upper right. */
  ghost predicate HasVersionTwice(modules: array2<bool>, version: nat)
    requires SizeOf(modules, version)
    reads modules
  {
    forall k :: 0 <= k < 18 ==> modules[5 - k / 3, 4 * version + 8 - k % 3] == VersionField(modules, version)[k]
  }

  /** The whole frame; the module beside the lower left separator is always dark. */
  ghost predicate HasFrame(modules: array2<bool>, version: nat)
    requires SizeOf(modules, version)
    reads modules
  {
    && HasFinders(modules, version) && HasTiming(modules, version) && HasAlignments(modules, version)
    && modules[4 * version + 9, 8] && HasFormatTwice(modules, version)
    && (version >= 7 ==> HasVersionTwice(modules, version))
  }

  // ---- the pictures and the drawing rules agree ----

  ghost predicate ShowsPatterns(modules: array2<bool>, version: nat, f: Fields)
    requires SizeOf(modules, version)
    reads modules
  {
    forall x, y :: 0 <= x < Size(version) && 0 <= y < Size(version) && Drawn(6, version, f, x, y).Some? ==>
      modules[y, x] == Drawn(6, version, f, x, y).value
  }

  lemma FinderPicture(x: int, y: int)
    requires 0 <= x < 8 && 0 <= y < 8
    ensures FinderAt(0, 0, x, y) == Some(FinderDark(x, y))
  {
    if y == 0 {} else if y == 1 {} else if y == 2 {} else if y == 3 {} else if y == 4 {} else if y == 5 {} else if y == 6 {}
  }

  lemma FinderMirrors(size: int, x: int, y: int)
    requires 21 <= size && 0 <= x < 8 && 0 <= y < 8
    ensures Finder(size, x, y) == FinderAt(0, 0, x, y)
    ensures Finder(size, size - 1 - x, y) == FinderAt(0, 0, x, y)
    ensures Finder(size, x, size - 1 - y) == FinderAt(0, 0, x, y)
  {}

  /** In the eight by eight corners nothing but the finders is drawn. */
  lemma OnlyFinders(version: nat, f: Fields, x: int, y: int)
    requires ValidVersion(version)
    requires var far := Size(version) - 8;
      (0 <= x < 8 && 0 <= y < 8) || (far <= x < far + 8 && 0 <= y < 8) || (0 <= x < 8 && far <= y < far + 8)
    ensures Drawn(6, version, f, x, y) == Finder(Size(version), x, y)
  {
    AlignmentsAgree(version, x, y);
    assert !Scanner.InAlignment(version, x, y);
    hide Alignment, Finder, Scanner.InAlignment;
  }

  lemma CornersAreFinders(version: nat, f: Fields, x: int, y: int)
    requires ValidVersion(version) && 0 <= x < 8 && 0 <= y < 8
    ensures Drawn(6, version, f, x, y) == Some(FinderDark(x, y))
    ensures Drawn(6, version, f, Size(version) - 1 - x, y) == Some(FinderDark(x, y))
    ensures Drawn(6, version, f, x, Size(version) - 1 - y) == Some(FinderDark(x, y))
  {
    hide Drawn, FinderDark, FinderAt, Finder;
    OnlyFinders(version, f, x, y);
    OnlyFinders(version, f, Size(version) - 1 - x, y);
    OnlyFinders(version, f, x, Size(version) - 1 - y);
    FinderPicture(x, y);
    FinderMirrors(Size(version), x, y);
  }

  lemma AlignmentPicture(cx: int, cy: int, x: int, y: int)
    requires 0 <= x < 5 && 0 <= y < 5
    ensures RingDark(cx, cy, cx - 2 + x, cy - 2 + y) <==> AlignmentDark(x, y)
  {
    if y == 0 {} else if y == 1 {} else if y == 2 {} else if y == 3 {} else {}
  }

  lemma CentresAre(version: nat)
    requires 2 <= version <= 10
    ensures var last, half := 4 * version + 10, 2 * version + 8;
      Centres(version) == if version < 7 then [6, last] else [6, half, last]
  {}

  predicate IsCentre(version: nat, cx: int, cy: int) {
    var last, half := 4 * version + 10, 2 * version + 8;
    if version < 2 then false
    else if version < 7 then cx == last && cy == last
    else cx in {6, half, last} && cy in {6, half, last} && (cx == half || cy == half || (cx == last && cy == last))
  }

  lemma CentreIsDrawn(version: nat, cx: int, cy: int, x: int, y: int)
    requires ValidVersion(version) && IsCentre(version, cx, cy) && Abs(x - cx) <= 2 && Abs(y - cy) <= 2
    ensures Alignment(version, x, y) == Some(RingDark(cx, cy, x, y))
    ensures FormatIndex(Size(version), x, y) == -1 && !(x == 8 && y == Size(version) - 8)
    ensures version >= 7 ==> VersionIndex(Size(version), x, y) == -1
  {
    CentresAre(version);
    hide Centres, RingDark;
  }

  lemma AlignmentIsShown(modules: array2<bool>, version: nat, f: Fields, cx: nat, cy: nat)
    requires SizeOf(modules, version) && ShowsPatterns(modules, version, f) && IsCentre(version, cx, cy)
    requires 2 <= cx < 4 * version + 15 && 2 <= cy < 4 * version + 15
    ensures HasAlignment(modules, version, cx, cy)
  {
    hide Alignment, RingDark, AlignmentDark, IsCentre, FormatIndex, VersionIndex, Timing, Finder;
    forall x, y | 0 <= x < 5 && 0 <= y < 5 ensures modules[cy - 2 + y, cx - 2 + x] == AlignmentDark(x, y) {
      CentreIsDrawn(version, cx, cy, cx - 2 + x, cy - 2 + y);
      AlignmentPicture(cx, cy, x, y);
      assert Drawn(6, version, f, cx - 2 + x, cy - 2 + y) == Some(AlignmentDark(x, y));
    }
  }

  lemma AlignmentsAreShown(modules: array2<bool>, version: nat, f: Fields)
    requires SizeOf(modules, version) && ShowsPatterns(modules, version, f)
    ensures HasAlignments(modules, version)
  {
    hide ShowsPatterns, HasAlignment;
    var last, half := 4 * version + 10, 2 * version + 8;
    if version >= 2 { AlignmentIsShown(modules, version, f, last, last); }
    if version >= 7 {
      AlignmentIsShown(modules, version, f, half, 6);
      AlignmentIsShown(modules, version, f, half, half);
      AlignmentIsShown(modules, version, f, half, last);
      AlignmentIsShown(modules, version, f, 6, half);
      AlignmentIsShown(modules, version, f, last, half);
    }
  }

  lemma FindersAreShown(modules: array2<bool>, version: nat, f: Fields)
    requires SizeOf(modules, version) && ShowsPatterns(modules, version, f)
    ensures HasFinders(modules, version)
  {
    hide Drawn, FinderDark;
    forall x, y | 0 <= x < 8 && 0 <= y < 8
      ensures modules[y, x] == FinderDark(x, y)
      ensures modules[y, Size(version) - 1 - x] == FinderDark(x, y)
      ensures modules[Size(version) - 1 - y, x] == FinderDark(x, y)
    {
      CornersAreFinders(version, f, x, y);
    }
  }

  /** Where an alignment pattern lies across a timing run, it goes on with it. */
  lemma TimingRuns(version: nat, f: Fields, i: int)
    requires ValidVersion(version) && 8 <= i < 4 * version + 9
    ensures Drawn(6, version, f, i, 6) == Some(i % 2 == 0) == Drawn(6, version, f, 6, i)
  {
    var size, half := Size(version), 2 * version + 8;
    AlignmentsAgree(version, i, 6);
    AlignmentsAgree(version, 6, i);
    if version >= 7 && Abs(i - half) <= 2 {
      CentreIsDrawn(version, half, 6, i, 6);
      CentreIsDrawn(version, 6, half, 6, i);
    }
    hide Alignment;
  }

  lemma TimingIsShown(modules: array2<bool>, version: nat, f: Fields)
    requires SizeOf(modules, version) && ShowsPatterns(modules, version, f)
    ensures HasTiming(modules, version)
  {
    hide Drawn;
    forall i | 8 <= i < 4 * version + 9 ensures modules[6, i] == (i % 2 == 0) && modules[i, 6] == (i % 2 == 0) {
      TimingRuns(version, f, i);
    }
  }

  lemma FormatCell(version: nat, f: Fields, k: nat)
    requires ValidVersion(version) && k < 15 && |f.format| == 15
    ensures var c, size := Scanner.FORMAT_CELLS[k], Size(version);
      && Drawn(6, version, f, c.x, c.y) == Some(f.format[k])
      && (if k < 7 then Drawn(6, version, f, 8, size - 1 - k) else Drawn(6, version, f, size - 15 + k, 8)) == Some(f.format[k])
  {
    hide Alignment, Finder, Timing;
    var c := Scanner.FORMAT_CELLS[k];
    assert FormatPos1(14 - k) == c;
    FormatIndexInverts(Size(version), c.x, c.y, 14 - k);
    var d := FormatPos2(14 - k, Size(version));
    FormatIndexInverts(Size(version), d.x, d.y, 14 - k);
  }

  lemma FormatIsShown(modules: array2<bool>, version: nat, f: Fields)
    requires SizeOf(modules, version) && ShowsPatterns(modules, version, f) && |f.format| == 15
    ensures Scanner.IsSymbol(modules) && Scanner.FormatField(modules) == f.format && HasFormatTwice(modules, version)
  {
    hide Drawn;
    forall k | 0 <= k < 15
      ensures Scanner.FormatField(modules)[k] == f.format[k]
      ensures (if k < 7 then modules[Size(version) - 1 - k, 8] else modules[8, Size(version) - 15 + k]) == f.format[k]
    {
      FormatCell(version, f, k);
    }
    forall k | 0 <= k < 15
      ensures modules[Scanner.FORMAT_CELLS[k].y, Scanner.FORMAT_CELLS[k].x] == Scanner.FormatField(modules)[k] {}
  }

  lemma VersionCell(version: nat, f: Fields, k: nat)
    requires 7 <= version <= 10 && k < 18 && |f.version| == 18
    ensures Drawn(6, version, f, 5 - k / 3, 4 * version + 8 - k % 3) == Some(f.version[k])
    ensures Drawn(6, version, f, 4 * version + 8 - k % 3, 5 - k / 3) == Some(f.version[k])
  {
    hide Alignment, Finder, Timing, FormatIndex;
  }

  lemma VersionIsShown(modules: array2<bool>, version: nat, f: Fields)
    requires SizeOf(modules, version) && version >= 7 && ShowsPatterns(modules, version, f) && |f.version| == 18
    ensures VersionField(modules, version) == f.version && HasVersionTwice(modules, version)
  {
    hide Drawn;
    forall k | 0 <= k < 18
      ensures modules[4 * version + 8 - k % 3, 5 - k / 3] == f.version[k]
      ensures modules[5 - k / 3, 4 * version + 8 - k % 3] == f.version[k]
    {
      VersionCell(version, f, k);
    }
  }

  lemma DarkIsShown(modules: array2<bool>, version: nat, f: Fields)
    requires SizeOf(modules, version) && ShowsPatterns(modules, version, f)
    ensures modules[4 * version + 9, 8]
  {
    hide Alignment, Finder, Timing;
    assert Drawn(6, version, f, 8, 4 * version + 9) == Some(true);
  }

  /** A symbol that shows every layer of the drawing looks like the pictures, and its fields can be read off. */
  lemma FrameIsShown(modules: array2<bool>, version: nat, f: Fields)
    requires SizeOf(modules, version) && ShowsPatterns(modules, version, f)
    requires |f.format| == 15 && (version >= 7 ==> |f.version| == 18)
    ensures HasFrame(modules, version)
    ensures Scanner.IsSymbol(modules) && Scanner.FormatField(modules) == f.format
    ensures version >= 7 ==> VersionField(modules, version) == f.version
  {
    hide ShowsPatterns, HasFinders, HasTiming, HasAlignments, HasFormatTwice, HasVersionTwice, Drawn;
    FindersAreShown(modules, version, f);
    TimingIsShown(modules, version, f);
    AlignmentsAreShown(modules, version, f);
    DarkIsShown(modules, version, f);
    FormatIsShown(modules, version, f);
    if version >= 7 { VersionIsShown(modules, version, f); }
  }
}
