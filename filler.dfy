/** The final pass of the generator: every cell still holding the placeholder
    gets a letter drawn from the uppercase alphabet. */
module Filler {
  import opened WordGrid

  /** One cell after the fill, given its contents before. */
  predicate FilledCell(before: char, after: char) {
    if before == PLACEHOLDER then after in Uppercase else after == before
  }

  /** `H` is `G` with each empty cell replaced by some uppercase letter and
      every other cell left as it was. */
  predicate Refilled(G: Grid, H: Grid)
    requires IsGrid(G) && IsGrid(H)
  {
    forall r, c :: 0 <= r < Height && 0 <= c < Width ==> FilledCell(G[r][c], H[r][c])
  }

  /** Fills the grid in place, row by row; each letter is an arbitrary pick
      from the alphabet, standing for the generator's random choice. */
  method FillBlanks(g: array2<char>)
    requires g.Length0 == Height && g.Length1 == Width
    modifies g
    ensures Refilled(old(Cells(g)), Cells(g))
  {
    ghost var G0 := Cells(g);
    var y := 0;
    while y < Height
      invariant 0 <= y <= Height
      invariant forall r, c :: 0 <= r < y && 0 <= c < Width ==> FilledCell(G0[r][c], g[r, c])
      invariant forall r, c :: y <= r < Height && 0 <= c < Width ==> g[r, c] == G0[r][c]
    {
      var x := 0;
      while x < Width
        invariant 0 <= x <= Width
        invariant forall r, c :: 0 <= r < y && 0 <= c < Width ==> FilledCell(G0[r][c], g[r, c])
        invariant forall c :: 0 <= c < x ==> FilledCell(G0[y][c], g[y, c])
        invariant forall c :: x <= c < Width ==> g[y, c] == G0[y][c]
        invariant forall r, c :: y < r < Height && 0 <= c < Width ==> g[r, c] == G0[r][c]
      {
        if g[y, x] == PLACEHOLDER {
          assert Uppercase[0] in Uppercase;
          var ch :| ch in Uppercase;
          g[y, x] := ch;
        }
        x := x + 1;
      }
      y := y + 1;
    }
  }

  /** After the fill no cell is empty. */
  lemma RefilledNoPlaceholder(G: Grid, H: Grid)
    requires IsGrid(G) && IsGrid(H) && Refilled(G, H)
    ensures NoPlaceholder(H)
  {
    assert PLACEHOLDER !in Uppercase;
  }

  /** The fill does not disturb a word written without placeholders. */
  lemma RefilledKeepsWritten(G: Grid, H: Grid, w: string, q: Placement)
    requires IsGrid(G) && IsGrid(H) && Refilled(G, H)
    requires Clean(w) && WrittenAt(G, w, q)
    ensures WrittenAt(H, w, q)
  {
    forall i | 0 <= i < |w|
      ensures H[CellY(q, i)][CellX(q, i)] == w[i]
    {
      assert w[i] in w;
    }
  }

  /** A grid without empty cells is left as it is. */
  lemma RefilledFullIsIdentity(G: Grid, H: Grid)
    requires IsGrid(G) && IsGrid(H) && Refilled(G, H) && NoPlaceholder(G)
    ensures H == G
  {
    GridExt(H, G);
  }
}
