/** Data placement: the zig-zag walk over the symbol, the masks, and reading the walk back. */
module QrWalk {
  import opened Sequences
  import opened Galois
  import opened Arithmetic
  import opened Bits
  import opened QrData
  import opened QrTiles

  datatype Cell = Cell(x: int, y: int)

  predicate ValidSize(size: int) {
    21 <= size && size % 4 == 1
  }

  /** The right column of the p-th column pair: pairs go leftward and step over column 6. */
  function Right(size: int, p: nat): int {
    var r := size - 1 - 2 * p;
    if r <= 6 then r - 1 else r
  }

  function Pairs(size: int): nat
    requires ValidSize(size)
  {
    (size - 1) / 2
  }

  /** (right+1)&2 == 0 */
  predicate Upward(right: int) {
    (right + 1) / 2 % 2 == 0
  }

  function RowAt(size: int, p: nat, vert: int): int {
    if Upward(Right(size, p)) then size - 1 - vert else vert
  }

  /** The first `v` rows of pair p, two modules a row. */
  function PairWalk(size: int, p: nat, v: nat): (w: seq<Cell>) {
    if v == 0 then []
    else
      var right, y := Right(size, p), RowAt(size, p, v - 1);
      PairWalk(size, p, v - 1) + [Cell(right, y)] + [Cell(right - 1, y)]
  }

  /** The walk over the first p column pairs. */
  function Walk(size: int, p: nat): (w: seq<Cell>)
    requires 0 <= size
  {
    if p == 0 then [] else Walk(size, p - 1) + PairWalk(size, p - 1, size)
  }

  ghost predicate InGrid(w: seq<Cell>, size: int) {
    forall i :: 0 <= i < |w| ==> 0 <= w[i].x < size && 0 <= w[i].y < size
  }

  // ---- where the walk has been ----

  /** The leftmost column reached by the first p pairs. */
  function Reached(size: int, p: nat): int {
    if p == 0 then size else Right(size, p - 1) - 1
  }

  ghost predicate InPair(size: int, p: nat, v: nat, c: Cell) {
    && (c.x == Right(size, p) || c.x == Right(size, p) - 1)
    && (if Upward(Right(size, p)) then size - v <= c.y < size else 0 <= c.y < v)
  }

  ghost predicate InWalk(size: int, p: nat, c: Cell) {
    0 <= c.y < size && Reached(size, p) <= c.x < size && c.x != 6
  }

  lemma {:induction false} PairWalkCovers(size: int, p: nat, v: nat)
    requires ValidSize(size) && p < Pairs(size) && v <= size
    ensures forall c :: c in PairWalk(size, p, v) <==> InPair(size, p, v, c)
    ensures Distinct(PairWalk(size, p, v))
  {
    if v > 0 {
      PairWalkCovers(size, p, v - 1);
      var before := PairWalk(size, p, v - 1);
      var right, y := Right(size, p), RowAt(size, p, v - 1);
      var a, b := Cell(right, y), Cell(right - 1, y);
      assert !InPair(size, p, v - 1, a) && !InPair(size, p, v - 1, b);
      Extend(before, a);
      Extend(before + [a], b);
      forall c ensures c in PairWalk(size, p, v) <==> InPair(size, p, v, c) {
        assert c in PairWalk(size, p, v) <==> c in before || c == a || c == b;
      }
    }
  }

  lemma Extend(w: seq<Cell>, c: Cell)
    requires Distinct(w) && c !in w
    ensures Distinct(w + [c])
  {}

  lemma Append(w: seq<Cell>, u: seq<Cell>)
    requires Distinct(w) && Distinct(u) && forall c :: c in w ==> c !in u
    ensures Distinct(w + u)
  {
    var s := w + u;
    forall i, j | 0 <= i < j < |s| ensures s[i] != s[j] {
      if i < |w| <= j { assert s[i] in w && s[j] in u; }
    }
  }

  lemma NextPair(size: int, p: nat, c: Cell)
    requires ValidSize(size) && p < Pairs(size)
    ensures InWalk(size, p + 1, c) <==> InWalk(size, p, c) || InPair(size, p, size, c)
    ensures !(InWalk(size, p, c) && InPair(size, p, size, c))
    ensures 1 <= Right(size, p) < size
  {}

  lemma {:induction false} WalkCovers(size: int, p: nat)
    requires ValidSize(size) && p <= Pairs(size)
    ensures forall c :: c in Walk(size, p) <==> InWalk(size, p, c)
    ensures Distinct(Walk(size, p))
  {
    if p > 0 {
      hide InWalk, InPair;
      WalkCovers(size, p - 1);
      PairWalkCovers(size, p - 1, size);
      var w, u := Walk(size, p - 1), PairWalk(size, p - 1, size);
      forall c ensures c in w ==> c !in u { NextPair(size, p - 1, c); }
      Append(w, u);
      forall c ensures c in w + u <==> InWalk(size, p, c) { NextPair(size, p - 1, c); }
    } else {
      forall c ensures !InWalk(size, 0, c) {}
    }
  }

  function FullWalk(size: int): seq<Cell>
    requires ValidSize(size)
  {
    Walk(size, Pairs(size))
  }

  /** The walk meets every module outside column 6 exactly once, and none in it. */
  lemma WalkIsComplete(size: int)
    requires ValidSize(size)
    ensures Distinct(FullWalk(size)) && InGrid(FullWalk(size), size)
    ensures forall c :: c in FullWalk(size) <==> 0 <= c.x < size && 0 <= c.y < size && c.x != 6
  {
    WalkCovers(size, Pairs(size));
    assert Right(size, Pairs(size) - 1) == 1;
    var w := FullWalk(size);
    forall i | 0 <= i < |w| ensures 0 <= w[i].x < size && 0 <= w[i].y < size {
      assert w[i] in w && InWalk(size, Pairs(size), w[i]);
    }
  }

  // ---- data modules ----

  /** The unreserved modules of a walk, in order. */
  ghost function Free(w: seq<Cell>, reserved: array2<bool>): (f: seq<Cell>)
    requires InGrid(w, reserved.Length0) && reserved.Length0 == reserved.Length1
    reads reserved
    ensures InGrid(f, reserved.Length0)
    ensures forall c :: c in f <==> c in w && !reserved[c.y, c.x]
  {
    if w == [] then []
    else
      var c := w[|w| - 1];
      Free(w[..|w| - 1], reserved) + if reserved[c.y, c.x] then [] else [c]
  }

  lemma FreeSnoc(w: seq<Cell>, c: Cell, reserved: array2<bool>)
    requires InGrid(w + [c], reserved.Length0) && InGrid(w, reserved.Length0) && reserved.Length0 == reserved.Length1
    requires 0 <= c.x < reserved.Length0 && 0 <= c.y < reserved.Length0
    ensures Free(w + [c], reserved) == Free(w, reserved) + if reserved[c.y, c.x] then [] else [c]
  {
    assert (w + [c])[..|w|] == w;
  }

  lemma {:induction false} FreeDistinct(w: seq<Cell>, reserved: array2<bool>)
    requires InGrid(w, reserved.Length0) && reserved.Length0 == reserved.Length1 && Distinct(w)
    ensures Distinct(Free(w, reserved))
  {
    if w != [] { FreeDistinct(w[..|w| - 1], reserved); }
  }

  function MaskAt(mask: nat, x: nat, y: nat): bool {
    match mask
    case 0 => (y + x) % 2 == 0
    case 1 => y % 2 == 0
    case 2 => x % 3 == 0
    case 3 => (y + x) % 3 == 0
    case 4 => (y / 2 + x / 3) % 2 == 0
    case 5 => (y * x) % 2 + (y * x) % 3 == 0
    case 6 => ((y * x) % 2 + (y * x) % 3) % 2 == 0
    case _ => ((y + x) % 2 + (y * x) % 3) % 2 == 0
  }

  lemma SumMod(x: nat, y: nat)
    ensures (y + x) % 2 == (y % 2 + x % 2) % 2 && (y + x) % 3 == (y % 3 + x % 3) % 3
  {
    SameRemainder(y + x, y % 2 + x % 2, y / 2 + x / 2, 2);
    SameRemainder(y + x, y % 3 + x % 3, y / 3 + x / 3, 3);
  }

  lemma SameRemainder(m: nat, n: nat, q: nat, d: nat)
    requires d > 0 && m == n + q * d
    ensures m % d == n % d
  {
    assert m == (n / d + q) * d + n % d;
    DivideExact(m, n / d + q, d, n % d);
  }

  lemma SmallTiles(x: nat, y: nat)
    ensures Marked(TILE0, x, y) <==> MaskAt(0, x, y)
    ensures Marked(TILE1, x, y) <==> MaskAt(1, x, y)
    ensures Marked(TILE2, x, y) <==> MaskAt(2, x, y)
  {
    SumMod(x, y);
  }

  lemma DiagonalTile(x: nat, y: nat)
    ensures Marked(TILE3, x, y) <==> MaskAt(3, x, y)
  {
    SumMod(x, y);
    var r, s := x % 3, y % 3;
    assert Marked(TILE3, x, y) <==> TILE3[s][r] == '#';
  }

  lemma Blocks(x: nat, y: nat)
    ensures (y / 2 + x / 3) % 2 == (y % 4 / 2 + x % 6 / 3) % 2
  {
    var b, s, a, r := y / 4, y % 4, x / 6, x % 6;
    DivideExact(y, 2 * b + s / 2, 2, s % 2);
    DivideExact(x, 2 * a + r / 3, 3, r % 3);
    SameRemainder(y / 2 + x / 3, s / 2 + r / 3, a + b, 2);
  }

  lemma BlockTile(x: nat, y: nat)
    ensures Marked(TILE4, x, y) <==> MaskAt(4, x, y)
  {
    Blocks(x, y);
  }

  lemma BySix(m: nat, n: nat, q: nat)
    requires m == n + 6 * q
    ensures m % 2 == n % 2 && m % 3 == n % 3
  {
    DivideExact(m, n / 2 + 3 * q, 2, n % 2);
    DivideExact(m, n / 3 + 2 * q, 3, n % 3);
  }

  lemma ProductMod(x: nat, y: nat)
    ensures (y * x) % 2 == (y % 6 * (x % 6)) % 2 && (y * x) % 3 == (y % 6 * (x % 6)) % 3
    ensures (y + x) % 2 == (y % 6 + x % 6) % 2
  {
    var a, r, b, s := x / 6, x % 6, y / 6, y % 6;
    Expand(a, r, b, s);
    BySix(y * x, s * r, 6 * b * a + b * r + s * a);
    BySix(y + x, s + r, a + b);
  }

  lemma Expand(a: nat, r: nat, b: nat, s: nat)
    ensures (6 * b + s) * (6 * a + r) == s * r + 6 * (6 * b * a + b * r + s * a)
  {}

  lemma FifthTile(r: nat, s: nat)
    requires r < 6 && s < 6
    ensures TILE5[s][r] == '#' <==> (s * r) % 2 + (s * r) % 3 == 0
  {
    if s == 0 {} else if s == 1 {} else if s == 2 {} else if s == 3 {} else if s == 4 {} else {}
  }

  lemma SixthTile(r: nat, s: nat)
    requires r < 6 && s < 6
    ensures TILE6[s][r] == '#' <==> ((s * r) % 2 + (s * r) % 3) % 2 == 0
  {
    if s == 0 {} else if s == 1 {} else if s == 2 {} else if s == 3 {} else if s == 4 {} else {}
  }

  lemma SeventhTile(r: nat, s: nat)
    requires r < 6 && s < 6
    ensures TILE7[s][r] == '#' <==> ((s + r) % 2 + (s * r) % 3) % 2 == 0
  {
    if s == 0 {} else if s == 1 {} else if s == 2 {} else if s == 3 {} else if s == 4 {} else {}
  }

  lemma ProductTiles(mask: nat, x: nat, y: nat)
    requires mask >= 5
    ensures Marked(Tile(mask), x, y) <==> MaskAt(mask, x, y)
  {
    ProductMod(x, y);
    FifthTile(x % 6, y % 6);
    SixthTile(x % 6, y % 6);
    SeventhTile(x % 6, y % 6);
    SixBySix(mask, x, y);
    hide Marked, TILE5, TILE6, TILE7;
  }

  lemma SixBySix(mask: nat, x: nat, y: nat)
    requires mask >= 5
    ensures Marked(Tile(mask), x, y) <==>
      (if mask == 5 then TILE5 else if mask == 6 then TILE6 else TILE7)[y % 6][x % 6] == '#'
  {}

  /** Each mask inverts the modules its tile marks. */
  lemma MaskIsTile(mask: nat, x: nat, y: nat)
    ensures MaskAt(mask, x, y) <==> Inverted(mask, x, y)
  {
    SmallTiles(x, y);
    DiagonalTile(x, y);
    BlockTile(x, y);
    if mask >= 5 { ProductTiles(mask, x, y); }
    hide Marked;
  }

  /** Bit k of the codeword stream; past its end the bits are zero. */
  function DataBit(codewords: seq<Byte>, k: nat): bool {
    k < 8 * |codewords| && BitAt(codewords, k)
  }

  /** The same bit, taken from the number that the codeword is. */
  function StreamBit(codewords: seq<Byte>, k: nat): bool {
    k < 8 * |codewords| && Shr(Value(codewords[k / 8]), 7 - k % 8) % 2 == 1
  }

  lemma DataBitIs(codewords: seq<Byte>, k: nat)
    ensures DataBit(codewords, k) == StreamBit(codewords, k)
  {
    if k < 8 * |codewords| {
      hide ByteBits, BitsOf, Value, Shr;
      var b := codewords[k / 8];
      ValueBits(b);
      BitsOfAt(Value(b), 8, k % 8);
    }
  }

  /** The modules listed carry the stream, each inverted where the tile of the mask has a mark. */
  ghost predicate Carries(modules: array2<bool>, cells: seq<Cell>, codewords: seq<Byte>, mask: nat)
    requires InGrid(cells, modules.Length0) && modules.Length0 == modules.Length1
    reads modules
  {
    forall k :: 0 <= k < |cells| ==>
      modules[cells[k].y, cells[k].x] == (StreamBit(codewords, k) != Inverted(mask, cells[k].x, cells[k].y))
  }

  /** Reserved modules have the colour they had. */
  twostate predicate KeepsReserved(modules: array2<bool>, reserved: array2<bool>)
    requires modules.Length0 == modules.Length1 == reserved.Length0 == reserved.Length1
    reads modules, reserved
  {
    forall x, y :: 0 <= x < modules.Length0 && 0 <= y < modules.Length0 && reserved[y, x]
      ==> modules[y, x] == old(modules[y, x])
  }

  method PlaceModule(modules: array2<bool>, reserved: array2<bool>, codewords: seq<Byte>, mask: nat,
                     c: Cell, bit: nat, ghost w: seq<Cell>)
    returns (bit': nat)
    requires modules != reserved
    requires modules.Length0 == modules.Length1 == reserved.Length0 == reserved.Length1
    requires InGrid(w + [c], modules.Length0) && c !in w
    requires 0 <= c.x < modules.Length0 && 0 <= c.y < modules.Length0
    requires InGrid(w, modules.Length0) && bit == |Free(w, reserved)|
    requires Carries(modules, Free(w, reserved), codewords, mask)
    modifies modules
    ensures bit' == |Free(w + [c], reserved)|
    ensures Carries(modules, Free(w + [c], reserved), codewords, mask)
    ensures KeepsReserved(modules, reserved)
  {
    FreeSnoc(w, c, reserved);
    hide StreamBit, Inverted, Free;
    if reserved[c.y, c.x] {
      bit' := bit;
    } else {
      WriteFree(modules, codewords, mask, c, bit, Free(w, reserved));
      bit' := bit + 1;
    }
  }

  method WriteFree(modules: array2<bool>, codewords: seq<Byte>, mask: nat, c: Cell, bit: nat, ghost f: seq<Cell>)
    requires modules.Length0 == modules.Length1 && InGrid(f + [c], modules.Length0) && InGrid(f, modules.Length0)
    requires 0 <= c.x < modules.Length0 && 0 <= c.y < modules.Length0
    requires c !in f && bit == |f| && Carries(modules, f, codewords, mask)
    modifies modules
    ensures Carries(modules, f + [c], codewords, mask)
    ensures forall x, y :: 0 <= x < modules.Length0 && 0 <= y < modules.Length0 && (x != c.x || y != c.y)
              ==> modules[y, x] == old(modules[y, x])
  {
    hide DataBit, StreamBit, MaskAt, Inverted;
    DataBitIs(codewords, bit);
    MaskIsTile(mask, c.x, c.y);
    var dark := DataBit(codewords, bit) != MaskAt(mask, c.x, c.y);
    forall k | 0 <= k < |f| ensures f[k].x != c.x || f[k].y != c.y { assert f[k] in f; }
    modules[c.y, c.x] := dark;
  }

  /** One column pair, in the direction its column number gives. */
  method PlacePair(modules: array2<bool>, reserved: array2<bool>, codewords: seq<Byte>, mask: nat, size: int,
                   right: int, start: nat, ghost p: nat)
    returns (bit: nat)
    requires ValidSize(size) && modules != reserved && p < Pairs(size) && right == Right(size, p)
    requires modules.Length0 == modules.Length1 == reserved.Length0 == reserved.Length1 == size
    requires InGrid(Walk(size, p), size) && start == |Free(Walk(size, p), reserved)|
    requires Carries(modules, Free(Walk(size, p), reserved), codewords, mask)
    modifies modules
    ensures InGrid(Walk(size, p + 1), size) && bit == |Free(Walk(size, p + 1), reserved)|
    ensures Carries(modules, Free(Walk(size, p + 1), reserved), codewords, mask)
    ensures KeepsReserved(modules, reserved)
  {
    hide Carries, Free, Walk, PairWalk, Distinct, Right;
    bit := start;
    var upward := Upward(right);
    StartPair(size, p);
    for vert := 0 to size
      invariant InGrid(Walk(size, p) + PairWalk(size, p, vert), size)
      invariant bit == |Free(Walk(size, p) + PairWalk(size, p, vert), reserved)|
      invariant Carries(modules, Free(Walk(size, p) + PairWalk(size, p, vert), reserved), codewords, mask)
      invariant KeepsReserved(modules, reserved)
    {
      var y := if upward then size - 1 - vert else vert;
      ghost var w := Walk(size, p) + PairWalk(size, p, vert);
      NextRow(size, p, vert);
      bit := PlaceModule(modules, reserved, codewords, mask, Cell(right, y), bit, w);
      bit := PlaceModule(modules, reserved, codewords, mask, Cell(right - 1, y), bit, w + [Cell(right, y)]);
    }
    EndPair(size, p);
  }

  /** Writes the codeword bits, masked, along the walk; reserved modules stay as they are. */
  method PlaceData(modules: array2<bool>, reserved: array2<bool>, codewords: seq<Byte>, mask: nat, size: int)
    requires ValidSize(size) && modules != reserved
    requires modules.Length0 == modules.Length1 == reserved.Length0 == reserved.Length1 == size
    modifies modules
    ensures InGrid(FullWalk(size), size)
    ensures Carries(modules, Free(FullWalk(size), reserved), codewords, mask)
    ensures KeepsReserved(modules, reserved)
  {
    hide Carries, Free, Walk, PairWalk, Distinct, Right, InGrid, Upward, Pairs, ValidSize;
    Bounds(size);
    var bit := 0;
    var right := size - 1;
    ghost var p := 0;
    NoWalk(modules, reserved, codewords, mask, size);
    while right >= 1
      invariant p <= Pairs(size) && right == size - 1 - 2 * p - if size - 1 - 2 * p < 6 then 1 else 0
      invariant InGrid(Walk(size, p), size)
      invariant bit == |Free(Walk(size, p), reserved)|
      invariant Carries(modules, Free(Walk(size, p), reserved), codewords, mask)
      invariant KeepsReserved(modules, reserved)
      decreases right
    {
      if right == 6 {
        right := 5;
      }
      RightOf(size, p);
      PairsLeft(size, p);
      bit := PlacePair(modules, reserved, codewords, mask, size, right, bit, p);
      p := p + 1;
      right := right - 2;
    }
    PairsLeft(size, p);
  }

  lemma Bounds(size: int)
    requires ValidSize(size)
    ensures 21 <= size
  {}

  /** The loop runs once for each pair. */
  lemma PairsLeft(size: int, p: nat)
    requires ValidSize(size) && p <= Pairs(size)
    ensures p < Pairs(size) <==> size - 1 - 2 * p - (if size - 1 - 2 * p < 6 then 1 else 0) >= 1
    ensures p < Pairs(size) ==> size - 1 - 2 * p >= 2 && size - 1 - 2 * p != 7
  {}

  lemma NoWalk(modules: array2<bool>, reserved: array2<bool>, codewords: seq<Byte>, mask: nat, size: int)
    requires modules.Length0 == modules.Length1 == reserved.Length0 == reserved.Length1 == size && 0 <= size
    ensures Walk(size, 0) == [] && InGrid([], size) && Free([], reserved) == []
    ensures Carries(modules, [], codewords, mask)
  {}

  lemma RightOf(size: int, p: nat)
    ensures Right(size, p) == size - 1 - 2 * p - if size - 1 - 2 * p <= 6 then 1 else 0
  {}

  lemma StartPair(size: int, p: nat)
    requires 0 <= size
    ensures Walk(size, p) + PairWalk(size, p, 0) == Walk(size, p)
  {}

  lemma EndPair(size: int, p: nat)
    requires 0 <= size
    ensures Walk(size, p) + PairWalk(size, p, size) == Walk(size, p + 1)
  {}

  /** The two modules of the next row are new to the walk. */
  lemma NextRow(size: int, p: nat, vert: nat)
    requires ValidSize(size) && p < Pairs(size) && vert < size
    ensures
      var w := Walk(size, p) + PairWalk(size, p, vert);
      var a, b := Cell(Right(size, p), RowAt(size, p, vert)), Cell(Right(size, p) - 1, RowAt(size, p, vert));
      && 0 <= b.x < a.x < size && 0 <= a.y == b.y < size
      && InGrid(w, size) && InGrid(w + [a], size) && InGrid(w + [a] + [b], size)
      && a !in w && b !in w + [a]
      && w + [a] + [b] == Walk(size, p) + PairWalk(size, p, vert + 1)
  {
    var w := Walk(size, p) + PairWalk(size, p, vert);
    var a, b := Cell(Right(size, p), RowAt(size, p, vert)), Cell(Right(size, p) - 1, RowAt(size, p, vert));
    assert w + [a] + [b] == Walk(size, p) + PairWalk(size, p, vert + 1);
    WalkCovers(size, p);
    PairWalkCovers(size, p, vert);
    hide Walk, PairWalk;
    NextPair(size, p, a);
    NextPair(size, p, b);
    assert InPair(size, p, size, a) && InPair(size, p, size, b);
    assert !InPair(size, p, vert, a) && !InPair(size, p, vert, b);
    forall c | c in w ensures 0 <= c.x < size && 0 <= c.y < size {
      if c in PairWalk(size, p, vert) { assert InPair(size, p, vert, c); } else { assert InWalk(size, p, c); }
    }
  }

  /** A scanner's reading of the data modules, unmasked. */
  ghost function ReadData(modules: array2<bool>, cells: seq<Cell>, mask: nat): (bits: seq<bool>)
    requires InGrid(cells, modules.Length0) && modules.Length0 == modules.Length1
    reads modules
    ensures |bits| == |cells|
  {
    seq(|cells|, k requires 0 <= k < |cells| reads modules =>
      modules[cells[k].y, cells[k].x] != Inverted(mask, cells[k].x, cells[k].y))
  }

  /** Reading the walk back gives the codeword bits in order, then zeros. */
  lemma ReadWhatWasPlaced(modules: array2<bool>, cells: seq<Cell>, codewords: seq<Byte>, mask: nat)
    requires InGrid(cells, modules.Length0) && modules.Length0 == modules.Length1
    requires Carries(modules, cells, codewords, mask)
    ensures forall k :: 0 <= k < |cells| ==> ReadData(modules, cells, mask)[k] == StreamBit(codewords, k)
  {
    hide StreamBit, Inverted;
  }
}
