/** The position finder: every placement at which a word can be written on
    the current grid, found cell by cell, either starting at an empty cell or
    threading through a letter the word already contains. */
module Finder {
  import opened WordGrid

  /** The two contract violations of the used-location finder. */
  datatype FinderError = IndexOutOfRange | LetterMismatch

  datatype Result<T> = Ok(value: T) | Err(error: FinderError)

  /** The indices at which `s` holds `ch`, in increasing order. */
  function FindAllIdx(s: string, ch: char): (r: seq<int>)
    ensures forall i :: i in r <==> 0 <= i < |s| && s[i] == ch
    ensures forall i, j :: 0 <= i < j < |r| ==> r[i] < r[j]
  {
    IndicesFrom(s, ch, 0)
  }

  /** The indices from `k` on at which `s` holds `ch`, in increasing order. */
  function IndicesFrom(s: string, ch: char, k: nat): (r: seq<int>)
    requires k <= |s|
    ensures forall i :: i in r <==> k <= i < |s| && s[i] == ch
    ensures forall i, j :: 0 <= i < j < |r| ==> r[i] < r[j]
    decreases |s| - k
  {
    if k == |s| then []
    else
      var rest := IndicesFrom(s, ch, k + 1);
      assert forall j :: 0 <= j < |rest| ==> rest[j] in rest;
      (if s[k] == ch then [k] else []) + rest
  }

  // ---------------------------------------------------------------------------
  // Empty-location mode

  /** Placements starting at `(x, y)` in the first `k` directions, kept when legal. */
  function EmptyUpTo(word: string, G: Grid, x: int, y: int, k: nat): seq<Placement>
    requires IsGrid(G) && k <= |Directions|
  {
    if k == 0 then []
    else
      var p := Placement(x, y, Directions[k - 1]);
      EmptyUpTo(word, G, x, y, k - 1) + (if Legal(word, G, p) then [p] else [])
  }

  /** The placements of `word` whose first letter goes on the empty cell `(x, y)`. */
  function WordPositionsFromEmptyLocation(word: string, G: Grid, x: int, y: int): seq<Placement>
    requires IsGrid(G)
  {
    EmptyUpTo(word, G, x, y, |Directions|)
  }

  /** Directions of a result list come in the order of `Directions`, each at most once. */
  predicate InDirectionOrder(r: seq<Placement>) {
    forall i, j :: 0 <= i < j < |r| ==> DirIndex(r[i].d) < DirIndex(r[j].d)
  }

  /** Appending at most one placement of a later direction keeps the order. */
  lemma AppendInOrder(r: seq<Placement>, extra: seq<Placement>, k: int)
    requires InDirectionOrder(r) && |extra| <= 1
    requires forall i :: 0 <= i < |r| ==> DirIndex(r[i].d) < k
    requires forall i :: 0 <= i < |extra| ==> DirIndex(extra[i].d) == k
    ensures InDirectionOrder(r + extra)
  {
  }

  lemma {:induction false} EmptyUpToSound(word: string, G: Grid, x: int, y: int, k: nat)
    requires IsGrid(G) && k <= |Directions|
    ensures forall p :: p in EmptyUpTo(word, G, x, y, k) ==>
      p.x == x && p.y == y && Legal(word, G, p) && DirIndex(p.d) < k
  {
    if k > 0 {
      EmptyUpToSound(word, G, x, y, k - 1);
      DirIndexAt(k - 1);
    }
  }

  lemma {:induction false} EmptyUpToOrdered(word: string, G: Grid, x: int, y: int, k: nat)
    requires IsGrid(G) && k <= |Directions|
    ensures InDirectionOrder(EmptyUpTo(word, G, x, y, k))
  {
    if k > 0 {
      var r := EmptyUpTo(word, G, x, y, k - 1);
      var p := Placement(x, y, Directions[k - 1]);
      EmptyUpToOrdered(word, G, x, y, k - 1);
      EmptyUpToSound(word, G, x, y, k - 1);
      DirIndexAt(k - 1);
      assert forall i :: 0 <= i < |r| ==> r[i] in r;
      AppendInOrder(r, if Legal(word, G, p) then [p] else [], k - 1);
    }
  }

  lemma {:induction false} EmptyUpToHas(word: string, G: Grid, x: int, y: int, k: nat, p: Placement)
    requires IsGrid(G) && k <= |Directions|
    requires p.x == x && p.y == y && Legal(word, G, p) && DirIndex(p.d) < k
    ensures p in EmptyUpTo(word, G, x, y, k)
  {
    DirIndexAt(k - 1);
    if DirIndex(p.d) < k - 1 {
      EmptyUpToHas(word, G, x, y, k - 1, p);
    } else {
      DirectionListed(p.d);
      var j :| 0 <= j < |Directions| && Directions[j] == p.d;
      DirIndexAt(j);
    }
  }

  /** The empty-location finder returns exactly the legal placements that start
      at `(x, y)`, at most one per direction and in the order of `Directions`. */
  lemma EmptyLocationExact(word: string, G: Grid, x: int, y: int, p: Placement)
    requires IsGrid(G)
    ensures p in WordPositionsFromEmptyLocation(word, G, x, y) <==> p.x == x && p.y == y && Legal(word, G, p)
    ensures InDirectionOrder(WordPositionsFromEmptyLocation(word, G, x, y))
  {
    EmptyUpToSound(word, G, x, y, |Directions|);
    EmptyUpToOrdered(word, G, x, y, |Directions|);
    if p.x == x && p.y == y && Legal(word, G, p) {
      EmptyUpToHas(word, G, x, y, |Directions|, p);
    }
  }

  // ---------------------------------------------------------------------------
  // Used-location mode

  /** Start column and row reached after the first `k` directions of the
      used-location finder: each direction moves the start back by `ndx` steps
      from where the previous one left it, not from the location itself. */
  function DriftX(x0: int, ndx: int, k: nat): int
    requires k <= |Directions|
  {
    if k == 0 then x0 else DriftX(x0, ndx, k - 1) - Steps(Directions[k - 1].dx, ndx)
  }

  function DriftY(y0: int, ndx: int, k: nat): int
    requires k <= |Directions|
  {
    if k == 0 then y0 else DriftY(y0, ndx, k - 1) - Steps(Directions[k - 1].dy, ndx)
  }

  /** The placement the used-location finder tries in its `k`-th direction (counting from 1). */
  function DriftedPlacement(x0: int, y0: int, ndx: int, k: nat): Placement
    requires 0 < k <= |Directions|
  {
    Placement(DriftX(x0, ndx, k), DriftY(y0, ndx, k), Directions[k - 1])
  }

  /** Legal placements tried by the used-location finder in its first `k` directions. */
  function UsedUpTo(word: string, G: Grid, x0: int, y0: int, ndx: int, k: nat): seq<Placement>
    requires IsGrid(G) && k <= |Directions|
  {
    if k == 0 then []
    else
      var p := DriftedPlacement(x0, y0, ndx, k);
      UsedUpTo(word, G, x0, y0, ndx, k - 1) + (if Legal(word, G, p) then [p] else [])
  }

  /** What the used-location finder returns once its argument checks pass. */
  function UsedLocationPositions(word: string, G: Grid, x: int, y: int, ndx: int): seq<Placement>
    requires IsGrid(G)
  {
    UsedUpTo(word, G, x, y, ndx, |Directions|)
  }

  /** The used-location finder: `(x, y)` holds `word[ndx]`; for each direction
      the start coordinate is moved back by `ndx` steps (cumulatively, as the
      loop reassigns `x` and `y`) and the placement is kept when legal. */
  method GetWordPositionsFromUsedLocation(word: string, G: Grid, x: int, y: int, ndx: int)
    returns (r: Result<seq<Placement>>)
    requires IsGrid(G) && InBounds(x, y)
    ensures (ndx < 0 || ndx >= |word|) ==> r == Err(IndexOutOfRange)
    ensures 0 <= ndx < |word| && G[y][x] != word[ndx] ==> r == Err(LetterMismatch)
    ensures 0 <= ndx < |word| && G[y][x] == word[ndx] ==> r == Ok(UsedLocationPositions(word, G, x, y, ndx))
  {
    if ndx < 0 || ndx >= |word| {
      return Err(IndexOutOfRange);
    }
    if G[y][x] != word[ndx] {
      return Err(LetterMismatch);
    }
    var wordPositions := DriftScan(word, G, x, y, ndx);
    return Ok(wordPositions);
  }

  /** The direction loop of the used-location finder, once its checks pass:
      the start drifts from direction to direction, and each placement is
      kept when legal. */
  method DriftScan(word: string, G: Grid, x: int, y: int, ndx: int) returns (wordPositions: seq<Placement>)
    requires IsGrid(G)
    ensures wordPositions == UsedLocationPositions(word, G, x, y, ndx)
  {
    wordPositions := [];
    var sx, sy := x, y;
    var k := 0;
    while k < |Directions|
      invariant 0 <= k <= |Directions|
      invariant sx == DriftX(x, ndx, k) && sy == DriftY(y, ndx, k)
      invariant wordPositions == UsedUpTo(word, G, x, y, ndx, k)
    {
      var d := Directions[k];
      // the start is moved from where the previous direction left it
      sx := sx - Steps(d.dx, ndx);
      sy := sy - Steps(d.dy, ndx);
      var p := Placement(sx, sy, d);
      assert p == DriftedPlacement(x, y, ndx, k + 1);
      if Legal(word, G, p) {
        wordPositions := wordPositions + [p];
      }
      k := k + 1;
    }
  }

  lemma {:induction false} UsedUpToSound(word: string, G: Grid, x0: int, y0: int, ndx: int, k: nat)
    requires IsGrid(G) && k <= |Directions|
    ensures forall p :: p in UsedUpTo(word, G, x0, y0, ndx, k) ==>
      Legal(word, G, p) && DirIndex(p.d) < k && p == DriftedPlacement(x0, y0, ndx, DirIndex(p.d) + 1)
  {
    if k > 0 {
      UsedUpToSound(word, G, x0, y0, ndx, k - 1);
      DirIndexAt(k - 1);
    }
  }

  lemma {:induction false} UsedUpToOrdered(word: string, G: Grid, x0: int, y0: int, ndx: int, k: nat)
    requires IsGrid(G) && k <= |Directions|
    ensures InDirectionOrder(UsedUpTo(word, G, x0, y0, ndx, k))
  {
    if k > 0 {
      var r := UsedUpTo(word, G, x0, y0, ndx, k - 1);
      var p := DriftedPlacement(x0, y0, ndx, k);
      UsedUpToOrdered(word, G, x0, y0, ndx, k - 1);
      UsedUpToSound(word, G, x0, y0, ndx, k - 1);
      DirIndexAt(k - 1);
      assert forall i :: 0 <= i < |r| ==> r[i] in r;
      AppendInOrder(r, if Legal(word, G, p) then [p] else [], k - 1);
    }
  }

  lemma {:induction false} UsedUpToHas(word: string, G: Grid, x0: int, y0: int, ndx: int, k: nat, j: nat)
    requires IsGrid(G) && 0 < j <= k <= |Directions|
    requires Legal(word, G, DriftedPlacement(x0, y0, ndx, j))
    ensures DriftedPlacement(x0, y0, ndx, j) in UsedUpTo(word, G, x0, y0, ndx, k)
  {
    if j < k {
      UsedUpToHas(word, G, x0, y0, ndx, k - 1, j);
    }
  }

  /** The used-location finder returns exactly the legal placements that are
      the drifted start of their direction, at most one per direction and in
      the order of `Directions`. */
  lemma UsedLocationSound(word: string, G: Grid, x: int, y: int, ndx: int)
    requires IsGrid(G)
    ensures forall p :: p in UsedLocationPositions(word, G, x, y, ndx) <==>
      Legal(word, G, p) && p == DriftedPlacement(x, y, ndx, DirIndex(p.d) + 1)
    ensures InDirectionOrder(UsedLocationPositions(word, G, x, y, ndx))
  {
    UsedUpToSound(word, G, x, y, ndx, |Directions|);
    UsedUpToOrdered(word, G, x, y, ndx, |Directions|);
    forall p | Legal(word, G, p) && p == DriftedPlacement(x, y, ndx, DirIndex(p.d) + 1)
      ensures p in UsedLocationPositions(word, G, x, y, ndx)
    {
      UsedUpToHas(word, G, x, y, ndx, |Directions|, DirIndex(p.d) + 1);
    }
  }

  lemma {:induction false} UsedUpToAtZero(word: string, G: Grid, x: int, y: int, k: nat)
    requires IsGrid(G) && k <= |Directions|
    ensures DriftX(x, 0, k) == x && DriftY(y, 0, k) == y
    ensures UsedUpTo(word, G, x, y, 0, k) == EmptyUpTo(word, G, x, y, k)
  {
    if k > 0 {
      UsedUpToAtZero(word, G, x, y, k - 1);
    }
  }

  /** With `ndx == 0` nothing drifts, so the used-location finder returns the
      same list as the empty-location finder. */
  lemma UsedAtZeroIsEmpty(word: string, G: Grid, x: int, y: int)
    requires IsGrid(G)
    ensures UsedLocationPositions(word, G, x, y, 0) == WordPositionsFromEmptyLocation(word, G, x, y)
  {
    UsedUpToAtZero(word, G, x, y, |Directions|);
  }

  lemma DriftValues(x0: int, y0: int, ndx: int)
    ensures DriftX(x0, ndx, 1) == x0 - ndx && DriftY(y0, ndx, 1) == y0 + ndx
    ensures DriftX(x0, ndx, 2) == x0 - 2 * ndx && DriftY(y0, ndx, 2) == y0 + ndx
    ensures DriftX(x0, ndx, 3) == x0 - 3 * ndx && DriftY(y0, ndx, 3) == y0
    ensures DriftX(x0, ndx, 4) == x0 - 3 * ndx && DriftY(y0, ndx, 4) == y0 - ndx
    ensures DriftX(x0, ndx, 5) == x0 - 2 * ndx && DriftY(y0, ndx, 5) == y0 - 2 * ndx
    ensures DriftX(x0, ndx, 6) == x0 - ndx && DriftY(y0, ndx, 6) == y0 - 2 * ndx
    ensures DriftX(x0, ndx, 7) == x0 && DriftY(y0, ndx, 7) == y0 - ndx
    ensures DriftX(x0, ndx, 8) == x0 && DriftY(y0, ndx, 8) == y0
  {
  }

  /** In the used-location finder, the `ndx`-th letter of the placement tried in
      the `k`-th direction lands on the location only for the first direction or
      when `ndx` is 0: the start drifts for every later direction. */
  lemma AnchoredOnlyWithoutDrift(x0: int, y0: int, ndx: int, k: nat)
    requires 0 < k <= |Directions|
    ensures var p := DriftedPlacement(x0, y0, ndx, k);
      (CellX(p, ndx) == x0 && CellY(p, ndx) == y0) <==> (ndx == 0 || k == 1)
  {
    DriftValues(x0, y0, ndx);
  }

  // ---------------------------------------------------------------------------
  // Whole-grid scan

  /** The lists of `ss`, concatenated in order. */
  function Flatten(ss: seq<seq<Placement>>): seq<Placement> {
    if |ss| == 0 then [] else Flatten(ss[..|ss| - 1]) + ss[|ss| - 1]
  }

  lemma {:induction false} FlattenAllEmpty(ss: seq<seq<Placement>>)
    requires forall i :: 0 <= i < |ss| ==> ss[i] == []
    ensures Flatten(ss) == []
  {
    if |ss| > 0 {
      FlattenAllEmpty(ss[..|ss| - 1]);
    }
  }

  lemma FlattenStep(ss: seq<seq<Placement>>, n: int)
    requires 0 <= n < |ss|
    ensures Flatten(ss[..n + 1]) == Flatten(ss[..n]) + ss[n]
  {
    assert ss[..n + 1][..n] == ss[..n];
  }

  lemma {:induction false} FlattenMember(ss: seq<seq<Placement>>, p: Placement)
    ensures p in Flatten(ss) <==> exists i :: 0 <= i < |ss| && p in ss[i]
  {
    if |ss| > 0 {
      var init := ss[..|ss| - 1];
      FlattenMember(init, p);
      assert forall i :: 0 <= i < |init| ==> init[i] == ss[i];
    }
  }

  /** The used-location results for the occurrence indices `ns`, one list per index. */
  function UsedTable(word: string, G: Grid, x: int, y: int, ns: seq<int>): (t: seq<seq<Placement>>)
    requires IsGrid(G)
    ensures |t| == |ns|
  {
    seq(|ns|, i requires 0 <= i < |ns| => UsedLocationPositions(word, G, x, y, ns[i]))
  }

  /** What the whole-grid scan collects at the cell `(x, y)`. */
  function CellPositions(word: string, G: Grid, x: int, y: int): seq<Placement>
    requires IsGrid(G) && InBounds(x, y)
  {
    if G[y][x] == PLACEHOLDER then WordPositionsFromEmptyLocation(word, G, x, y)
    else Flatten(UsedTable(word, G, x, y, FindAllIdx(word, G[y][x])))
  }

  /** What the scan collects at each cell of row `y`, from left to right. */
  function CellTable(word: string, G: Grid, y: int): (t: seq<seq<Placement>>)
    requires IsGrid(G) && 0 <= y < Height
    ensures |t| == Width
  {
    seq(Width, x requires 0 <= x < Width => CellPositions(word, G, x, y))
  }

  /** What the scan collects in each row, from top to bottom. */
  function RowTable(word: string, G: Grid): (t: seq<seq<Placement>>)
    requires IsGrid(G)
    ensures |t| == Height
  {
    seq(Height, y requires 0 <= y < Height => Flatten(CellTable(word, G, y)))
  }

  /** Every placement the whole-grid scan finds for `word`, row by row. */
  function WordPositions(word: string, G: Grid): seq<Placement>
    requires IsGrid(G)
  {
    Flatten(RowTable(word, G))
  }

  /** What the scan appends at a cell holding a letter: the used-location
      finder's results for every index at which `word` holds that letter. */
  method ScanUsedCell(word: string, G: Grid, x: int, y: int) returns (found: seq<Placement>)
    requires IsGrid(G) && InBounds(x, y) && G[y][x] != PLACEHOLDER
    ensures found == CellPositions(word, G, x, y)
  {
    var ns := FindAllIdx(word, G[y][x]);
    ghost var used := UsedTable(word, G, x, y, ns);
    found := [];
    var j := 0;
    while j < |ns|
      invariant 0 <= j <= |ns|
      invariant found == Flatten(used[..j])
    {
      var r := GetWordPositionsFromUsedLocation(word, G, x, y, ns[j]);
      FlattenStep(used, j);
      found := found + r.value;
      j := j + 1;
    }
    assert used[..|ns|] == used;
  }

  /** What the scan appends for row `y`, cell by cell from left to right. */
  method ScanRow(word: string, G: Grid, y: int) returns (found: seq<Placement>)
    requires IsGrid(G) && 0 <= y < Height
    ensures found == Flatten(CellTable(word, G, y))
  {
    ghost var cells := CellTable(word, G, y);
    var line := G[y];
    found := [];
    var x := 0;
    while x < |line|
      invariant 0 <= x <= Width
      invariant found == Flatten(cells[..x])
    {
      var here: seq<Placement>;
      if line[x] == PLACEHOLDER {
        here := WordPositionsFromEmptyLocation(word, G, x, y);
      } else {
        here := ScanUsedCell(word, G, x, y);
      }
      FlattenStep(cells, x);
      found := found + here;
      x := x + 1;
    }
    assert cells[..Width] == cells;
  }

  /** The whole-grid scan: for every cell, the empty-location finder if the
      cell is empty, else the used-location finder once per index at which
      the word holds the cell's letter. */
  method FindWordPositions(word: string, G: Grid) returns (positions: seq<Placement>)
    requires IsGrid(G)
    ensures positions == WordPositions(word, G)
  {
    ghost var rows := RowTable(word, G);
    positions := [];
    var y := 0;
    while y < |G|
      invariant 0 <= y <= Height
      invariant positions == Flatten(rows[..y])
    {
      var row := ScanRow(word, G, y);
      FlattenStep(rows, y);
      positions := positions + row;
      y := y + 1;
    }
    assert rows[..Height] == rows;
  }

  // ---------------------------------------------------------------------------
  // Soundness and completeness of the scan

  lemma CellPositionsSound(word: string, G: Grid, x: int, y: int)
    requires IsGrid(G) && InBounds(x, y)
    ensures forall p :: p in CellPositions(word, G, x, y) ==> Legal(word, G, p)
  {
    if G[y][x] == PLACEHOLDER {
      EmptyUpToSound(word, G, x, y, |Directions|);
    } else {
      var ns := FindAllIdx(word, G[y][x]);
      var used := UsedTable(word, G, x, y, ns);
      forall p | p in Flatten(used)
        ensures Legal(word, G, p)
      {
        FlattenMember(used, p);
        var i :| 0 <= i < |used| && p in used[i];
        UsedLocationSound(word, G, x, y, ns[i]);
      }
    }
  }

  /** Soundness of the scan: every placement it finds is legal. */
  lemma WordPositionsSound(word: string, G: Grid)
    requires IsGrid(G)
    ensures forall p :: p in WordPositions(word, G) ==> p.d in Directions && Legal(word, G, p)
  {
    var rows := RowTable(word, G);
    forall p | p in WordPositions(word, G)
      ensures p.d in Directions && Legal(word, G, p)
    {
      DirectionListed(p.d);
      FlattenMember(rows, p);
      var y :| 0 <= y < Height && p in rows[y];
      var cells := CellTable(word, G, y);
      FlattenMember(cells, p);
      var x :| 0 <= x < Width && p in cells[x];
      CellPositionsSound(word, G, x, y);
    }
  }

  /** Completeness of the scan: a legal placement of a non-empty word is found,
      because its first cell is either empty (empty-location mode) or holds
      `word[0]` (used-location mode with index 0, where nothing drifts). */
  lemma WordPositionsComplete(word: string, G: Grid, p: Placement)
    requires IsGrid(G) && |word| > 0 && Legal(word, G, p)
    ensures p in WordPositions(word, G)
  {
    assert CellX(p, 0) == p.x && CellY(p, 0) == p.y;
    assert InBounds(p.x, p.y);
    EmptyLocationExact(word, G, p.x, p.y, p);
    if G[p.y][p.x] != PLACEHOLDER {
      var ns := FindAllIdx(word, G[p.y][p.x]);
      assert 0 in ns;
      var i :| 0 <= i < |ns| && ns[i] == 0;
      UsedAtZeroIsEmpty(word, G, p.x, p.y);
      var used := UsedTable(word, G, p.x, p.y, ns);
      assert p in used[i];
      FlattenMember(used, p);
    }
    assert p in CellPositions(word, G, p.x, p.y);
    var cells := CellTable(word, G, p.y);
    assert p in cells[p.x];
    FlattenMember(cells, p);
    var rows := RowTable(word, G);
    assert p in rows[p.y];
    FlattenMember(rows, p);
  }

  /** The scan finds a non-empty word's placement exactly when it is legal. */
  lemma WordPositionsExact(word: string, G: Grid, p: Placement)
    requires IsGrid(G) && |word| > 0
    ensures p in WordPositions(word, G) <==> Legal(word, G, p)
  {
    WordPositionsSound(word, G);
    if Legal(word, G, p) {
      WordPositionsComplete(word, G, p);
    }
  }

  /** The scan comes back empty exactly when a non-empty word has no legal placement. */
  lemma WordPositionsEmptyIff(word: string, G: Grid)
    requires IsGrid(G) && |word| > 0
    ensures |WordPositions(word, G)| == 0 <==> forall p: Placement :: !Legal(word, G, p)
  {
    WordPositionsSound(word, G);
    if p: Placement :| Legal(word, G, p) {
      WordPositionsComplete(word, G, p);
    } else if |WordPositions(word, G)| > 0 {
      assert WordPositions(word, G)[0] in WordPositions(word, G);
    }
  }

  /** The empty word is legal at every placement, but the scan finds it only
      at empty cells: a letter never occurs in it, so the used-location mode
      contributes nothing. Its scan is therefore empty exactly when the grid
      has no empty cell. */
  lemma EmptyWordScan(G: Grid)
    requires IsGrid(G)
    ensures |WordPositions("", G)| == 0 <==> NoPlaceholder(G)
  {
    var rows := RowTable("", G);
    if !NoPlaceholder(G) {
      var y, x :| 0 <= y < Height && 0 <= x < Width && G[y][x] == PLACEHOLDER;
      var p := Placement(x, y, Directions[0]);
      EmptyLocationExact("", G, x, y, p);
      assert p in CellPositions("", G, x, y);
      var cells := CellTable("", G, y);
      assert p in cells[x];
      FlattenMember(cells, p);
      assert p in rows[y];
      FlattenMember(rows, p);
    } else {
      forall y | 0 <= y < Height
        ensures rows[y] == []
      {
        var cells := CellTable("", G, y);
        forall x | 0 <= x < Width
          ensures cells[x] == []
        {
          assert FindAllIdx("", G[y][x]) == [];
        }
        FlattenAllEmpty(cells);
      }
      FlattenAllEmpty(rows);
    }
  }
}
