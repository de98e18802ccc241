/** The eight masks as pictures, repeated over the symbol from its top left corner: a mark inverts the module. */
module QrTiles {
  const TILE0 := ["#.",
                  ".#"]
  const TILE1 := ["#",
                  "."]
  const TILE2 := ["#.."]
  const TILE3 := ["#..",
                  "..#",
                  ".#."]
  const TILE4 := ["###...",
                  "###...",
                  "...###",
                  "...###"]
  const TILE5 := ["######",
                  "#.....",
                  "#..#..",
                  "#.#.#.",
                  "#..#..",
                  "#....."]
  const TILE6 := ["######",
                  "###...",
                  "##.##.",
                  "#.#.#.",
                  "#.##.#",
                  "#...##"]
  const TILE7 := ["#.#.#.",
                  "...###",
                  "#...##",
                  ".#.#.#",
                  "###...",
                  ".###.."]

  predicate IsTile(t: seq<string>) {
    t != [] && t[0] != "" && forall y :: 0 <= y < |t| ==> |t[y]| == |t[0]|
  }

  function Tile(mask: nat): (t: seq<string>)
    ensures IsTile(t)
  {
    match mask
    case 0 => TILE0
    case 1 => TILE1
    case 2 => TILE2
    case 3 => TILE3
    case 4 => TILE4
    case 5 => TILE5
    case 6 => TILE6
    case _ => TILE7
  }

  predicate Marked(t: seq<string>, x: nat, y: nat)
    requires IsTile(t)
  {
    t[y % |t|][x % |t[0]|] == '#'
  }

  predicate Inverted(mask: nat, x: nat, y: nat) {
    Marked(Tile(mask), x, y)
  }
}
