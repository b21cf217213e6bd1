/** Writing a word onto the grid. The generator's grid copy is shallow, so the
    write lands in the very rows of the grid it was given; the model writes in
    place and hands back the same array. */
module Executor {
  import opened WordGrid

  /** The index along `p` at which the cell `(c, r)` would lie, were it on the line of `p`. */
  function PathIndex(p: Placement, c: int, r: int): int {
    if p.d.dx == 1 then c - p.x
    else if p.d.dx == -1 then p.x - c
    else if p.d.dy == 1 then r - p.y
    else p.y - r
  }

  /** The cell `(c, r)` is one of the first `n` cells of `p`. */
  predicate OnPath(n: int, p: Placement, c: int, r: int) {
    var i := PathIndex(p, c, r);
    0 <= i < n && CellX(p, i) == c && CellY(p, i) == r
  }

  /** `PathIndex` names the one index at which `p` reaches a cell. */
  lemma PathIndexUnique(p: Placement, i: int)
    ensures PathIndex(p, CellX(p, i), CellY(p, i)) == i
  {
  }

  /** `G` with `word` written along `p`. */
  function Placed(G: Grid, word: string, p: Placement): (H: Grid)
    requires IsGrid(G)
    ensures IsGrid(H)
  {
    seq(Height, r requires 0 <= r < Height =>
      seq(Width, c requires 0 <= c < Width =>
        if OnPath(|word|, p, c, r) then word[PathIndex(p, c, r)] else G[r][c]))
  }

  /** Writes `word` letter by letter from the start of `p` along its direction,
      into the grid it was given (the copy is shallow), and returns that grid. */
  method PlaceWord(word: string, p: Placement, g: array2<char>) returns (tmp: array2<char>)
    requires g.Length0 == Height && g.Length1 == Width
    requires AllInBounds(|word|, p)
    modifies g
    ensures tmp == g
    ensures Cells(g) == Placed(old(Cells(g)), word, p)
  {
    ghost var G0 := Cells(g);
    tmp := g;
    var x, y := p.x, p.y;
    var i := 0;
    while i < |word|
      invariant 0 <= i <= |word|
      invariant x == CellX(p, i) && y == CellY(p, i)
      invariant forall r, c :: 0 <= r < Height && 0 <= c < Width ==>
        g[r, c] == if OnPath(i, p, c, r) then word[PathIndex(p, c, r)] else G0[r][c]
    {
      assert InBounds(CellX(p, i), CellY(p, i));
      PathIndexUnique(p, i);
      tmp[y, x] := word[i];
      y := y + p.d.dy;
      x := x + p.d.dx;
      i := i + 1;
    }
    GridExt(Cells(g), Placed(G0, word, p));
  }

  /** After the write, `word` reads along `p`. */
  lemma PlacedWrites(G: Grid, word: string, p: Placement)
    requires IsGrid(G) && AllInBounds(|word|, p)
    ensures WrittenAt(Placed(G, word, p), word, p)
  {
    forall i | 0 <= i < |word|
      ensures Placed(G, word, p)[CellY(p, i)][CellX(p, i)] == word[i]
    {
      PathIndexUnique(p, i);
    }
  }

  /** Cells off the path keep their contents. */
  lemma PlacedFootprint(G: Grid, word: string, p: Placement, c: int, r: int)
    requires IsGrid(G) && InBounds(c, r)
    requires forall i :: 0 <= i < |word| ==> CellX(p, i) != c || CellY(p, i) != r
    ensures Placed(G, word, p)[r][c] == G[r][c]
  {
  }

  /** A legal write only fills empty cells: every cell that already holds a
      letter keeps it. */
  lemma PlacedKeepsLetters(G: Grid, word: string, p: Placement)
    requires IsGrid(G) && Legal(word, G, p)
    ensures forall r, c :: 0 <= r < Height && 0 <= c < Width && G[r][c] != PLACEHOLDER ==>
      Placed(G, word, p)[r][c] == G[r][c]
  {
    forall r, c | 0 <= r < Height && 0 <= c < Width && G[r][c] != PLACEHOLDER
      ensures Placed(G, word, p)[r][c] == G[r][c]
    {
      if OnPath(|word|, p, c, r) {
        var i := PathIndex(p, c, r);
        assert G[CellY(p, i)][CellX(p, i)] == G[r][c];
      }
    }
  }

  /** A legal write does not disturb a word already written without placeholders. */
  lemma PlacedPreservesWritten(G: Grid, word: string, p: Placement, w: string, q: Placement)
    requires IsGrid(G) && Legal(word, G, p)
    requires Clean(w) && WrittenAt(G, w, q)
    ensures WrittenAt(Placed(G, word, p), w, q)
  {
    PlacedKeepsLetters(G, word, p);
    forall i | 0 <= i < |w|
      ensures Placed(G, word, p)[CellY(q, i)][CellX(q, i)] == w[i]
    {
      assert w[i] in w;
    }
  }

  /** Writing a word where it already reads leaves the grid as it was: a
      backtracked word placed again at its recorded placement changes nothing. */
  lemma PlacedWrittenUnchanged(G: Grid, word: string, p: Placement)
    requires IsGrid(G) && WrittenAt(G, word, p)
    ensures Placed(G, word, p) == G
  {
    GridExt(Placed(G, word, p), G);
  }

  /** A word already written at `p` may be written there again: its own
      placement stays legal for it. */
  lemma WrittenIsLegal(G: Grid, word: string, p: Placement)
    requires IsGrid(G) && WrittenAt(G, word, p)
    ensures Legal(word, G, p)
  {
  }
}
