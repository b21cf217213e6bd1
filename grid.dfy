/** The puzzle grid, directions and placements of the word-search generator.
    A grid is a `Height` x `Width` matrix of characters indexed `G[y][x]`;
    the placeholder character marks a cell that holds no letter yet. */
module WordGrid {

  /** The dimensions are fixed by the generator. */
  const Width: int := 12
  const Height: int := 12

  /** The character of an empty cell. */
  const PLACEHOLDER: char := '.'

  /** The letters the filler draws from. */
  const Uppercase: string := "ABCDEFGHIJKLMNOPQRSTUVWXYZ"

  /** One step of a direction along one axis. */
  type Delta = d: int | -1 <= d <= 1

  datatype Dir = Dir(dx: Delta, dy: Delta)

  /** A unit step that moves: one of the eight neighbours of a cell. */
  type Direction = d: Dir | d.dx != 0 || d.dy != 0 witness Dir(1, 0)

  /** The eight directions, in the order in which the finders try them. */
  const Directions: seq<Direction> := [
    Dir(1, -1),
    Dir(1, 0),
    Dir(1, 1),
    Dir(0, 1),
    Dir(-1, 1),
    Dir(-1, 0),
    Dir(-1, -1),
    Dir(0, -1)
  ]

  /** Where a word goes: the cell of its first letter and the direction of the rest. */
  datatype Placement = Placement(x: int, y: int, d: Direction)

  type Grid = seq<seq<char>>

  predicate IsGrid(G: Grid) {
    |G| == Height && forall y :: 0 <= y < Height ==> |G[y]| == Width
  }

  predicate InBounds(x: int, y: int) {
    0 <= x < Width && 0 <= y < Height
  }

  /** `i` steps of size `delta`, that is `delta * i`, written out by sign so
      that it stays linear for the solver. */
  function Steps(delta: Delta, i: int): int {
    if delta == 1 then i else if delta == -1 then -i else 0
  }

  /** Column and row of the `i`-th letter of a word written at `p`. */
  function CellX(p: Placement, i: int): int { p.x + Steps(p.d.dx, i) }

  function CellY(p: Placement, i: int): int { p.y + Steps(p.d.dy, i) }

  /** All `n` cells of a placement lie on the grid. */
  predicate AllInBounds(n: int, p: Placement) {
    forall i :: 0 <= i < n ==> InBounds(CellX(p, i), CellY(p, i))
  }

  /** Every cell under the word is empty or holds the word's own letter there. */
  predicate AllMatch(word: string, G: Grid, p: Placement)
    requires IsGrid(G) && AllInBounds(|word|, p)
  {
    forall i :: 0 <= i < |word| ==>
      var l := G[CellY(p, i)][CellX(p, i)];
      word[i] == l || PLACEHOLDER == l
  }

  /** A placement at which `word` may be written on `G`. */
  predicate Legal(word: string, G: Grid, p: Placement)
    requires IsGrid(G)
  {
    AllInBounds(|word|, p) && AllMatch(word, G, p)
  }

  /** `word` can be read on `G` starting at `p`. */
  predicate WrittenAt(G: Grid, word: string, p: Placement)
    requires IsGrid(G)
  {
    AllInBounds(|word|, p) &&
    forall i :: 0 <= i < |word| ==> G[CellY(p, i)][CellX(p, i)] == word[i]
  }

  /** A word as the generator expects it: non-empty, and without the placeholder. */
  predicate Clean(word: string) {
    |word| > 0 && PLACEHOLDER !in word
  }

  predicate Blank(G: Grid)
    requires IsGrid(G)
  {
    forall y, x :: 0 <= y < Height && 0 <= x < Width ==> G[y][x] == PLACEHOLDER
  }

  predicate NoPlaceholder(G: Grid)
    requires IsGrid(G)
  {
    forall y, x :: 0 <= y < Height && 0 <= x < Width ==> G[y][x] != PLACEHOLDER
  }

  /** The value of the mutable grid `g` in the current heap. */
  function Cells(g: array2<char>): (G: Grid)
    reads g
    ensures |G| == g.Length0
    ensures forall y :: 0 <= y < g.Length0 ==> |G[y]| == g.Length1
    ensures forall y, x :: 0 <= y < g.Length0 && 0 <= x < g.Length1 ==> G[y][x] == g[y, x]
  {
    seq(g.Length0, y reads g requires 0 <= y < g.Length0 =>
      seq(g.Length1, x reads g requires 0 <= x < g.Length1 => g[y, x]))
  }

  /** Two grids with the same cells are the same value. */
  lemma GridExt(G: Grid, H: Grid)
    requires IsGrid(G) && IsGrid(H)
    requires forall y, x :: 0 <= y < Height && 0 <= x < Width ==> G[y][x] == H[y][x]
    ensures G == H
  {
    forall y | 0 <= y < Height
      ensures G[y] == H[y]
    {
      assert |G[y]| == |H[y]|;
      assert forall x :: 0 <= x < Width ==> G[y][x] == H[y][x];
    }
  }

  /** The eight listed directions are all the directions there are. */
  lemma DirectionListed(d: Direction)
    ensures d in Directions
  {
    if d.dx == 1 {
      assert d == Directions[0] || d == Directions[1] || d == Directions[2];
    } else if d.dx == 0 {
      assert d == Directions[3] || d == Directions[7];
    } else {
      assert d == Directions[4] || d == Directions[5] || d == Directions[6];
    }
  }

  /** The position of a direction in `Directions`. */
  function DirIndex(d: Direction): (k: nat)
    ensures k < |Directions|
  {
    if d.dx == 1 then 1 + d.dy
    else if d.dx == -1 then 5 - d.dy
    else if d.dy == 1 then 3
    else 7
  }

  /** `DirIndex` inverts the listing of `Directions`. */
  lemma DirIndexAt(k: nat)
    requires k < |Directions|
    ensures DirIndex(Directions[k]) == k
  {
    if k == 0 {} else if k == 1 {} else if k == 2 {} else if k == 3 {}
    else if k == 4 {} else if k == 5 {} else if k == 6 {} else {}
  }
}
