/** The puzzle builder: places the words longest first on a blank grid,
    backtracking through a stack of checkpoints when a word finds no place,
    and finally fills the remaining cells with random letters. */
module Scheduler {
  import opened WordGrid
  import opened Finder
  import opened Executor
  import opened Filler
  import opened Sorting

  /** A stack entry: a placed word and the grid it was placed on. The grid is
      a shallow copy, so it is the very array the builder keeps writing to. */
  datatype Checkpoint = Checkpoint(word: string, grid: array2<char>)

  /** How a build ends: with a puzzle, or with one of the generator's errors
      (the index error on an empty list, a word too long for the grid, a
      backtrack from an empty stack), or when the step budget runs out. */
  datatype Outcome = Done | EmptyWordList | WordTooLong | Infeasible | OutOfFuel

  /** The words on a stack, bottom first. */
  function Words(stack: seq<Checkpoint>): (ws: seq<string>)
    ensures |ws| == |stack|
    ensures forall i :: 0 <= i < |stack| ==> ws[i] == stack[i].word
  {
    seq(|stack|, i requires 0 <= i < |stack| => stack[i].word)
  }

  /** Every word is non-empty and free of the placeholder. */
  predicate AllClean(words: seq<string>) {
    forall i :: 0 <= i < |words| ==> Clean(words[i])
  }

  /** A word fits along a row or a column. */
  predicate Fits(w: string) {
    |w| <= Height || |w| <= Width
  }

  /** On a blank grid, a word that fits along a row or a column has a placement. */
  lemma BlankGridHasPositions(word: string, G: Grid)
    requires IsGrid(G) && Blank(G) && |word| > 0 && Fits(word)
    ensures |WordPositions(word, G)| > 0
  {
    // the grid is square, so a word that fits at all fits along the top row
    var p := Placement(0, 0, Dir(1, 0));
    assert Legal(word, G, p);
    WordPositionsComplete(word, G, p);
  }

  /** A word still written on the grid can always be placed again: its own
      placement is found. */
  lemma WrittenWordHasPositions(word: string, G: Grid, q: Placement)
    requires IsGrid(G) && |word| > 0 && WrittenAt(G, word, q)
    ensures q in WordPositions(word, G)
  {
    WrittenIsLegal(G, word, q);
    WordPositionsComplete(word, G, q);
  }

  /** The words too long for the grid are detected by looking at the longest. */
  lemma TooLongIffLongest(words: seq<string>)
    requires |words| > 0
    ensures !Fits(SortByLength(words)[|words| - 1]) <==> exists i :: 0 <= i < |words| && !Fits(words[i])
  {
    LongestLast(words);
  }

  /** Every stacked word reads on `G` at its recorded placement. */
  predicate StackWritten(G: Grid, stack: seq<Checkpoint>, placements: seq<Placement>)
    requires IsGrid(G) && |placements| == |stack|
  {
    forall i :: 0 <= i < |stack| ==> WrittenAt(G, stack[i].word, placements[i])
  }

  /** The words still to place, the word in hand and the stacked words make
      up the input list. */
  ghost predicate Accounted(words: seq<string>, available: seq<string>, current: string, stack: seq<Checkpoint>) {
    if |available| > 0 then
      multiset(available[..|available| - 1]) + multiset{current} + multiset(Words(stack)) == multiset(words)
    else multiset(Words(stack)) == multiset(words)
  }

  /** Pushing the word in hand and dropping the last available word keeps the
      account. */
  lemma AccountedAfterPush(words: seq<string>, available: seq<string>, current: string, stack: seq<Checkpoint>, c: Checkpoint)
    requires |available| > 0 && c.word == current && Accounted(words, available, current, stack)
    ensures var rest := available[..|available| - 1];
      Accounted(words, rest, if |rest| > 0 then rest[|rest| - 1] else current, stack + [c])
  {
    var rest := available[..|available| - 1];
    assert Words(stack + [c]) == Words(stack) + [current];
    if |rest| > 0 {
      assert rest == rest[..|rest| - 1] + [rest[|rest| - 1]];
    }
  }

  /** Putting back the word in hand, when it is the last available word, and
      taking the top of the stack keeps the account. */
  lemma AccountedAfterPop(words: seq<string>, available: seq<string>, current: string, stack: seq<Checkpoint>)
    requires |available| > 0 && |stack| > 0 && current == available[|available| - 1]
    requires Accounted(words, available, current, stack)
    ensures Accounted(words, available + [current], stack[|stack| - 1].word, stack[..|stack| - 1])
  {
    var top := stack[|stack| - 1];
    assert (available + [current])[..|available|] == available;
    assert available == available[..|available| - 1] + [current];
    assert Words(stack) == Words(stack[..|stack| - 1]) + [top.word];
  }

  /** What holds of the builder's loop state on the grid value `G`: one
      recorded placement per stacked word; and for clean words, the stacked
      words read on the grid, every input word is accounted for once, and the
      word in hand is either a backtracked word still written at `pending`,
      or the last available word, on a blank grid when the stack is empty. */
  ghost predicate Progress(words: seq<string>, available: seq<string>, current: string,
    stack: seq<Checkpoint>, placements: seq<Placement>, popped: bool, pending: Placement, G: Grid)
    requires IsGrid(G)
  {
    |placements| == |stack| &&
    (AllClean(words) ==>
      StackWritten(G, stack, placements) &&
      Accounted(words, available, current, stack) &&
      (|available| > 0 ==>
        (popped && WrittenAt(G, current, pending)) ||
        (!popped && current == available[|available| - 1] && (|stack| == 0 ==> Blank(G)))))
  }

  /** Under the account, the word in hand and every stacked word is an input word. */
  lemma AccountedMembers(words: seq<string>, available: seq<string>, current: string, stack: seq<Checkpoint>)
    requires |available| > 0 && Accounted(words, available, current, stack)
    ensures current in words
    ensures forall i :: 0 <= i < |stack| ==> stack[i].word in words
  {
    var ws := Words(stack);
    assert multiset{current} + multiset(ws) <= multiset(words);
    assert current in multiset(words);
    forall i | 0 <= i < |stack|
      ensures stack[i].word in words
    {
      assert ws[i] in multiset(ws);
      assert ws[i] in multiset(words);
    }
  }

  /** `word` has some legal placement on `G`. */
  ghost predicate Placeable(word: string, G: Grid)
    requires IsGrid(G)
  {
    |word| > 0 && exists p :: Legal(word, G, p)
  }

  /** The scan as the builder relies on it: every position found is legal,
      every legal placement of a non-empty word is found, and so some position
      is found whenever the word has a legal placement. */
  method Candidates(word: string, g: array2<char>) returns (positions: seq<Placement>)
    requires g.Length0 == Height && g.Length1 == Width
    ensures forall p :: p in positions ==> Legal(word, Cells(g), p)
    ensures |word| > 0 ==> forall p :: Legal(word, Cells(g), p) ==> p in positions
    ensures Placeable(word, Cells(g)) ==> |positions| > 0
    ensures |word| == 0 ==> (|positions| == 0 <==> NoPlaceholder(Cells(g)))
  {
    var G := Cells(g);
    positions := FindWordPositions(word, G);
    WordPositionsSound(word, G);
    if |word| == 0 {
      EmptyWordScan(G);
    }
    if |word| > 0 {
      forall p | Legal(word, G, p)
        ensures p in positions
      {
        WordPositionsComplete(word, G, p);
      }
    }
    if Placeable(word, G) {
      var q :| Legal(word, G, q);
      assert q in positions;
    }
  }

  lemma CleanMember(words: seq<string>, w: string)
    requires AllClean(words) && w in words
    ensures Clean(w)
  {
  }

  /** A backtracked word, and the first word on the blank grid, always have a
      placement when the words are clean. */
  lemma InHandPlaceable(words: seq<string>, available: seq<string>, current: string,
    stack: seq<Checkpoint>, placements: seq<Placement>, popped: bool, pending: Placement, G: Grid)
    requires IsGrid(G) && |available| > 0
    requires Progress(words, available, current, stack, placements, popped, pending, G)
    requires forall i :: 0 <= i < |words| ==> Fits(words[i])
    requires AllClean(words) && (popped || |stack| == 0)
    ensures Placeable(current, G)
  {
    AccountedMembers(words, available, current, stack);
    CleanMember(words, current);
    if popped {
      WrittenIsLegal(G, current, pending);
    } else {
      assert Legal(current, G, Placement(0, 0, Dir(1, 0)));
    }
  }

  /** With clean words the builder never backtracks from an empty stack. */
  lemma NeverInfeasible(words: seq<string>, available: seq<string>, current: string,
    stack: seq<Checkpoint>, placements: seq<Placement>, popped: bool, pending: Placement, G: Grid)
    requires IsGrid(G) && |available| > 0 && |stack| == 0
    requires Progress(words, available, current, stack, placements, popped, pending, G)
    requires forall i :: 0 <= i < |words| ==> Fits(words[i])
    requires !Placeable(current, G)
    ensures !AllClean(words)
  {
    if AllClean(words) {
      InHandPlaceable(words, available, current, stack, placements, popped, pending, G);
    }
  }

  /** Backtracking, when the word in hand has no placement: it is put back on
      the available list and the top of the stack is taken in hand, its
      letters still on the grid. */
  lemma ProgressAfterPop(words: seq<string>, available: seq<string>, current: string,
    stack: seq<Checkpoint>, placements: seq<Placement>, popped: bool, pending: Placement, G: Grid)
    requires IsGrid(G) && |available| > 0 && |stack| > 0
    requires Progress(words, available, current, stack, placements, popped, pending, G)
    requires forall i :: 0 <= i < |words| ==> Fits(words[i])
    requires !Placeable(current, G)
    ensures Progress(words, available + [current], stack[|stack| - 1].word, stack[..|stack| - 1],
      placements[..|placements| - 1], true, placements[|placements| - 1], G)
  {
    if AllClean(words) {
      if popped {
        InHandPlaceable(words, available, current, stack, placements, popped, pending, G);
      }
      AccountedAfterPop(words, available, current, stack);
    }
  }

  /** Placing the word in hand at a found position: it is pushed, and the next
      available word is taken in hand. */
  lemma ProgressAfterPush(words: seq<string>, available: seq<string>, current: string,
    stack: seq<Checkpoint>, placements: seq<Placement>, popped: bool, pending: Placement, G: Grid,
    p: Placement, g: array2<char>)
    requires IsGrid(G) && |available| > 0
    requires Progress(words, available, current, stack, placements, popped, pending, G)
    requires Legal(current, G, p)
    ensures var rest := available[..|available| - 1];
      Progress(words, rest, if |rest| > 0 then rest[|rest| - 1] else current,
        stack + [Checkpoint(current, g)], placements + [p], false, pending, Placed(G, current, p))
  {
    var H := Placed(G, current, p);
    var rest := available[..|available| - 1];
    var stack' := stack + [Checkpoint(current, g)];
    if AllClean(words) {
      AccountedMembers(words, available, current, stack);
      forall i | 0 <= i < |stack|
        ensures WrittenAt(H, stack[i].word, placements[i])
      {
        CleanMember(words, stack[i].word);
        PlacedPreservesWritten(G, current, p, stack[i].word, placements[i]);
      }
      PlacedWrites(G, current, p);
      AccountedAfterPush(words, available, current, stack, Checkpoint(current, g));
      assert StackWritten(H, stack', placements + [p]);
    }
  }

  /** One forward step of the builder: the word in hand goes to some position
      found for it, is pushed with the grid, and leaves the available list;
      the next available word, if any, is taken in hand. */
  method Advance(words: seq<string>, available: seq<string>, current: string, stack: seq<Checkpoint>,
    ghost placements: seq<Placement>, ghost popped: bool, ghost pending: Placement,
    positions: seq<Placement>, puzzle: array2<char>)
    returns (available': seq<string>, current': string, stack': seq<Checkpoint>, ghost placements': seq<Placement>)
    requires puzzle.Length0 == Height && puzzle.Length1 == Width && |available| > 0
    requires Progress(words, available, current, stack, placements, popped, pending, Cells(puzzle))
    requires |positions| > 0 && forall p :: p in positions ==> Legal(current, Cells(puzzle), p)
    modifies puzzle
    ensures available' == available[..|available| - 1]
    ensures current' == if |available'| > 0 then available'[|available'| - 1] else current
    ensures |stack'| == |stack| + 1 && stack'[..|stack|] == stack && stack'[|stack|] == Checkpoint(current, puzzle)
    ensures |placements'| == |placements| + 1 && placements'[..|placements|] == placements
    ensures placements'[|placements|] in positions
    ensures Cells(puzzle) == Placed(old(Cells(puzzle)), current, placements'[|placements|])
    ensures AllClean(words) && popped && placements'[|placements|] == pending ==>
      Cells(puzzle) == old(Cells(puzzle))
    ensures Progress(words, available', current', stack', placements', false, pending, Cells(puzzle))
  {
    ghost var G := Cells(puzzle);
    assert positions[0] in positions;
    var p :| p in positions;
    ProgressAfterPush(words, available, current, stack, placements, popped, pending, G, p, puzzle);
    if AllClean(words) && popped && p == pending {
      PlacedWrittenUnchanged(G, current, p);
    }
    var state := PlaceWord(current, p, puzzle);
    stack' := stack + [Checkpoint(current, state)];
    placements' := placements + [p];
    available' := available[..|available| - 1];
    current' := if |available'| > 0 then available'[|available'| - 1] else current;
  }

  /** The backtracking loop of the builder, on the blank grid `puzzle` and the
      sorted list `sorted` of the input `words`: takes the last available
      word, places it at some found position and pushes it, or, when it has
      none, puts it back and takes the top of the stack in hand again. */
  method PlaceAll(words: seq<string>, sorted: seq<string>, puzzle: array2<char>, fuel: nat)
    returns (status: Outcome, stack: seq<Checkpoint>, ghost placements: seq<Placement>, ghost inHand: string)
    requires puzzle.Length0 == Height && puzzle.Length1 == Width && Blank(Cells(puzzle))
    requires |sorted| > 0 && multiset(sorted) == multiset(words)
    requires forall i :: 0 <= i < |words| ==> Fits(words[i])
    modifies puzzle
    ensures status == Done || status == Infeasible || status == OutOfFuel
    ensures AllClean(words) ==> status != Infeasible
    ensures status == Infeasible ==> |stack| == 0 && inHand in words && !Placeable(inHand, Cells(puzzle))
    ensures status == Infeasible && |inHand| == 0 ==> NoPlaceholder(Cells(puzzle))
    ensures status == Done ==> |placements| == |stack|
    ensures status == Done ==> forall i :: 0 <= i < |stack| ==> stack[i].grid == puzzle
    ensures status == Done && AllClean(words) ==>
      StackWritten(Cells(puzzle), stack, placements) && multiset(Words(stack)) == multiset(words)
  {
    var available := sorted;
    stack, placements := [], [];
    var state := puzzle;
    var current := available[|available| - 1];
    ghost var popped := false;
    ghost var pending := Placement(0, 0, Dir(1, 0));
    var steps := fuel;
    assert available[..|available| - 1] + [current] == sorted;
    assert forall i :: 0 <= i < |sorted| ==> sorted[i] in multiset(words);

    while |available| > 0
      invariant state == puzzle
      invariant forall i :: 0 <= i < |stack| ==> stack[i].grid == puzzle
      invariant current in words
      invariant forall i :: 0 <= i < |available| ==> available[i] in words
      invariant forall i :: 0 <= i < |stack| ==> stack[i].word in words
      invariant Progress(words, available, current, stack, placements, popped, pending, Cells(puzzle))
      decreases steps
    {
      if steps == 0 {
        return OutOfFuel, stack, placements, current;
      }
      steps := steps - 1;

      var positions := Candidates(current, state);
      if |positions| == 0 {
        if |stack| == 0 {
          NeverInfeasible(words, available, current, stack, placements, popped, pending, Cells(state));
          return Infeasible, stack, placements, current;
        }
        ProgressAfterPop(words, available, current, stack, placements, popped, pending, Cells(state));
        var top := stack[|stack| - 1];
        available := available + [current];
        current, state := top.word, top.grid;
        stack := stack[..|stack| - 1];
        pending := placements[|placements| - 1];
        placements := placements[..|placements| - 1];
        popped := true;
      } else {
        available, current, stack, placements :=
          Advance(words, available, current, stack, placements, popped, pending, positions, state);
        popped := false;
      }
    }
    assert AllClean(words) ==> Accounted(words, available, current, stack);
    status, inHand := Done, current;
  }

  /** Builds a puzzle from `words`: a blank grid, the words sorted by length,
      the length check on the longest, the backtracking loop and the fill.
      The random choices are arbitrary picks; `fuel` bounds the number of
      steps of the loop, which the generator does not bound. The ghost
      results record where each word went. */
  method MakePuzzle(words: seq<string>, fuel: nat)
    returns (status: Outcome, puzzle: array2<char>, ghost placed: seq<string>, ghost placements: seq<Placement>,
      ghost stuck: string)
    ensures fresh(puzzle) && puzzle.Length0 == Height && puzzle.Length1 == Width
    ensures status == EmptyWordList <==> |words| == 0
    ensures status == WordTooLong <==> |words| > 0 && exists i :: 0 <= i < |words| && !Fits(words[i])
    ensures AllClean(words) ==> status != Infeasible
    ensures status == Infeasible ==> |placed| == 0 && stuck in words && !Placeable(stuck, Cells(puzzle))
    ensures status == Infeasible && |stuck| == 0 ==> NoPlaceholder(Cells(puzzle))
    ensures status == Done ==> NoPlaceholder(Cells(puzzle)) && |placements| == |placed|
    ensures status == Done && AllClean(words) ==>
      multiset(placed) == multiset(words) &&
      forall i :: 0 <= i < |placed| ==> WrittenAt(Cells(puzzle), placed[i], placements[i])
  {
    puzzle := new char[Height, Width]((_, _) => PLACEHOLDER);
    placed, placements, stuck := [], [], "";

    var sorted := SortByLength(words);
    if |sorted| == 0 {
      return EmptyWordList, puzzle, placed, placements, stuck;
    }
    TooLongIffLongest(words);
    var longest := sorted[|sorted| - 1];
    if |longest| > Height && |longest| > Width {
      return WordTooLong, puzzle, placed, placements, stuck;
    }
    SortByLengthCorrect(words);
    LongestLast(words);
    assert Blank(Cells(puzzle));

    var stack;
    status, stack, placements, stuck := PlaceAll(words, sorted, puzzle, fuel);
    placed := Words(stack);
    if status != Done {
      return;
    }

    ghost var H := Cells(puzzle);
    FillBlanks(puzzle);
    RefilledNoPlaceholder(H, Cells(puzzle));
    forall i | 0 <= i < |stack| && AllClean(words)
      ensures WrittenAt(Cells(puzzle), placed[i], placements[i])
    {
      assert placed[i] in multiset(words);
      CleanMember(words, stack[i].word);
      RefilledKeepsWritten(H, Cells(puzzle), stack[i].word, placements[i]);
    }
  }
}
