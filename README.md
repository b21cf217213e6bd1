# Word-search generator, modelled in Dafny

This project models the word-search generator in `main.py` of
rask004/word-soup-algorithm and proves properties of the model. The
generator works on a 12 x 12 grid of characters; `'.'` marks an empty cell.
It places a list of words along the eight directions, longest word first.
Words may overlap where their letters agree. When a word finds no place,
the generator backtracks through a stack of checkpoints. At the end it fills
the remaining empty cells with random uppercase letters.

The model follows the program's structure, one module per part:

- `WordGrid` (`grid.dfy`): the grid, the eight directions in program order,
  placements `(x, y, direction)`, and the legality test. A placement is legal
  when every cell of the word is on the grid and holds `'.'` or the word's own
  letter. The finders work on grid values (`seq<seq<char>>`). The builder's
  grid is one `array2<char>`, and `Cells` reads its current value.
- `Finder` (`finder.dfy`): `find_all_idx`; the empty-location finder; the
  used-location finder with its error checks and its drifting start; the
  whole-grid scan.
- `Executor` (`executor.dfy`): `placeWord`, which writes in place.
- `Sorting` (`sorting.dfy`): `sorted(words, key=len)`, as a stable insertion
  sort.
- `Filler` (`filler.dfy`): the final loop that fills the empty cells.
- `Scheduler` (`scheduler.dfy`): `makePuzzle`, with its backtracking loop.

Three behaviours of the code are modelled as written:

- **The start drifts.** The used-location finder reassigns `x` and `y` inside
  its direction loop. So the start for the k-th direction is moved back
  `ndx` steps from where the previous direction left it, not from the
  location. `word[ndx]` lands on the location only for the first direction
  or when `ndx` is 0 (`AnchoredOnlyWithoutDrift`).
- **Copies are shallow.** `copy` copies only the outer list, so every grid
  state shares the rows of `puzzle`. `PlaceWord` writes into the array it is
  given and returns that same array. Each stack checkpoint holds that same
  array. Backtracking therefore removes no letters, and the fill sees every
  placed word.
- **The failing word is requeued as written.** A word with no placement is
  appended to the available list. The top of the stack becomes the word in
  hand. When a freshly taken word fails, this leaves a second copy of it on
  the list. The following pop after the re-placement removes that copy, so
  every word stays accounted for once (`Scheduler.Accounted`). These facts
  are proved for *clean* words, meaning non-empty words without `'.'`.

The central result for the builder: with clean words, `makePuzzle` never
reports an infeasible list. A backtracked word is still written on the grid,
so the scan finds its own placement again. The stack is empty, with no
backtrack behind it, only at the first step. There the grid is blank and the
longest word has passed the length check. So a failing word always has a
checkpoint to pop. The loop may still run for ever, and the model takes a
step budget for that.

Three further facts about the code that the model keeps:

- Backtracking restores no letters: every checkpoint holds the one shared
  grid (main.py:90, 112, 122).
- On failure the failing word is appended to the available list and the
  popped word is placed again (main.py:121-122).
- An empty list is an index error at `words[-1]` (main.py:107), shown as
  `EmptyWordList`.

## Model

| member | source | states |
|---|---|---|
| WordGrid.DirectionListed | main.py:9-18 | every unit step that moves is one of the eight listed directions |
| WordGrid.DirIndexAt | main.py:9-18 | `DirIndex` gives each listed direction its position in the list |
| WordGrid.Directions | main.py:9-18 | the eight direction steps, in the order the finders try them |
| WordGrid.PLACEHOLDER | main.py:20 | the character `'.'` of an empty cell |
| WordGrid.AllInBounds | main.py:40-44 | all `len(word)` cells of the placement lie in `[0, width) x [0, height)` |
| WordGrid.AllMatch | main.py:45-49 | each cell under the word holds `'.'` or the word's own letter there |
| WordGrid.Legal | main.py:40-49 | the finders' acceptance test: in bounds, then matching |
| Finder.FindAllIdx | main.py:23-24 | the result holds exactly the indices `i` with `s[i] == ch`, in strictly increasing order |
| Finder.IndicesFrom | main.py:23-24 | the same for the indices from `k` on |
| Finder.AppendInOrder | main.py:59-71 | appending at most one placement of a later direction keeps the result in direction order |
| Finder.EmptyUpToSound | main.py:59-71 | each placement kept in the first `k` directions starts at the location, is legal, and has one of those directions |
| Finder.EmptyUpToOrdered | main.py:59-71 | the kept placements come one per direction at most, in the order of the direction list |
| Finder.EmptyUpToHas | main.py:59-71 | every legal placement starting at the location in one of the first `k` directions is kept |
| Finder.WordPositionsFromEmptyLocation | main.py:54-72 | the empty-location finder: the placements starting at the location in each direction, kept when legal |
| Finder.EmptyLocationExact | main.py:54-72 | the empty-location finder returns a placement iff it starts at the location and is legal; the results are in direction order |
| Finder.DriftX | main.py:35-39 | the start column after the first `k` directions, each moving it back `ndx` steps from where the previous left it |
| Finder.DriftY | main.py:35-39 | the start row after the first `k` directions, drifting the same way |
| Finder.DriftedPlacement | main.py:35-40 | the placement the used-location finder tries in its `k`-th direction |
| Finder.UsedLocationPositions | main.py:35-51 | the used-location finder's result once its checks pass: the drifted placements, kept when legal |
| Finder.GetWordPositionsFromUsedLocation | main.py:27-51 | an `ndx` outside `[0, len(word))` is an index error; a cell not holding `word[ndx]` is a mismatch; both are checked before any direction; otherwise the result is the drifted scan |
| Finder.DriftScan | main.py:35-51 | the direction loop, with its start moved cumulatively, computes the drifted scan |
| Finder.UsedUpToSound | main.py:35-50 | each kept placement is legal and is the drifted start of its direction |
| Finder.UsedUpToOrdered | main.py:35-50 | the used-location results come one per direction at most, in direction order |
| Finder.UsedUpToHas | main.py:35-50 | every legal drifted placement of the first `k` directions is kept |
| Finder.UsedLocationSound | main.py:27-51 | a placement is returned by the used-location finder iff it is legal and is the drifted start of its direction; the results are in direction order |
| Finder.UsedUpToAtZero | main.py:38-39 | with `ndx = 0` the start never moves and each prefix of the scan equals the empty-location one |
| Finder.UsedAtZeroIsEmpty | main.py:27-72 | with `ndx = 0` the used-location finder returns the same list as the empty-location finder |
| Finder.AnchoredOnlyWithoutDrift | main.py:38-39 | in the k-th direction, `word[ndx]` falls on the location iff `ndx = 0` or k is the first direction |
| Finder.ScanUsedCell | main.py:83-85 | at a cell holding a letter, the scan collects the used-location results for every index of that letter in the word |
| Finder.ScanRow | main.py:78-85 | one row of the scan collects the results of its cells, left to right |
| Finder.FindWordPositions | main.py:75-86 | the scan computes the row-by-row concatenation of the per-cell results |
| Finder.CellPositions | main.py:79-85 | what the scan collects at one cell: the empty-location results at an empty cell, else the used-location results for each index of the cell's letter in the word |
| Finder.WordPositions | main.py:75-86 | the scan's result: the cells' results, row by row and left to right |
| Finder.CellPositionsSound | main.py:79-85 | everything collected at a cell is a legal placement |
| Finder.WordPositionsSound | main.py:75-86 | every placement the scan returns is legal and uses a listed direction |
| Finder.WordPositionsComplete | main.py:75-86 | every legal placement of a non-empty word is returned, through its first cell being empty or holding `word[0]` |
| Finder.WordPositionsExact | main.py:75-86 | for a non-empty word, a placement is returned iff it is legal |
| Finder.WordPositionsEmptyIff | main.py:75-86 | for a non-empty word, the scan is empty iff no legal placement exists |
| Finder.EmptyWordScan | main.py:75-86 | for the empty word, the scan is empty iff the grid has no empty cell: it is found at every empty cell and never through a letter |
| Executor.Placed | main.py:89-97 | the written grid has the grid's dimensions |
| Executor.PlaceWord | main.py:89-97 | the write goes into the given array, which is returned; the new grid is the old one with the word along the placement |
| Executor.PlacedWrites | main.py:93-96 | after the write, `word[i]` is at `(x + i·dx, y + i·dy)` for every `i` |
| Executor.PlacedFootprint | main.py:93-96 | a cell off the word's path keeps its contents |
| Executor.PlacedKeepsLetters | main.py:89-97 | a legal write changes only empty cells; a letter already on the grid never changes |
| Executor.PlacedPreservesWritten | main.py:89-97 | a legal write leaves every clean word already written still readable |
| Executor.PlacedWrittenUnchanged | main.py:89-97 | writing a word where it already reads leaves the grid as it was |
| Executor.WrittenIsLegal | main.py:45-49 | a word that reads at a placement is legal there, so it may be written there again |
| Sorting.InsertByLength | main.py:106 | insertion adds exactly one word |
| Sorting.SortByLength | main.py:106 | the sort keeps the list's length |
| Sorting.InsertByLengthPerm | main.py:106 | insertion adds the word to the multiset |
| Sorting.InsertByLengthSorted | main.py:106 | inserting into a sorted list keeps it sorted by length |
| Sorting.SortByLengthPerm | main.py:106 | the sorted list is a permutation of the input |
| Sorting.SortByLengthSorted | main.py:106 | the sorted list is ordered by length |
| Sorting.SortByLengthCorrect | main.py:106 | the sorted list is ordered by length and a permutation of the input |
| Sorting.InsertByLengthStable | main.py:106 | insertion goes after the words of the same length |
| Sorting.SortByLengthStable | main.py:106 | the sort is stable: the words of each length keep their input order |
| Sorting.LongestLast | main.py:106-107 | the last sorted word is an input word at least as long as every other |
| Filler.FillBlanks | main.py:133-136 | every empty cell gets an uppercase letter and every other cell is left as it was |
| Filler.RefilledNoPlaceholder | main.py:133-136 | after the fill no cell is empty |
| Filler.RefilledKeepsWritten | main.py:133-136 | the fill leaves every clean written word readable |
| Filler.RefilledFullIsIdentity | main.py:133-136 | a grid without empty cells is left unchanged |
| Scheduler.BlankGridHasPositions | main.py:101-117 | on the blank grid, a non-empty word that fits along a row or column has a placement |
| Scheduler.WrittenWordHasPositions | main.py:117-122 | a word still written on the grid is found again at its own placement |
| Scheduler.TooLongIffLongest | main.py:106-108 | the longest sorted word is too long for both dimensions iff some input word is |
| Scheduler.Accounted | main.py:110-130 | the loop's word account: the available words but the last, the word in hand and the stacked words make up the input list |
| Scheduler.Progress | main.py:110-130 | the loop invariant: one placement per stacked word; for clean words, the stacked words read on the grid, the account holds, and the word in hand is a backtracked word still written on the grid, or the last available word, on the blank grid when the stack is empty |
| Scheduler.AccountedAfterPush | main.py:124-130 | pushing the word in hand and dropping the last available word keeps every input word accounted for once |
| Scheduler.AccountedAfterPop | main.py:121-122 | when the failing word is the last available word, requeuing it and taking the top of the stack keeps every word accounted for once |
| Scheduler.AccountedMembers | main.py:113-130 | under the account, the word in hand and every stacked word are input words |
| Scheduler.Candidates | main.py:117 | every position the scan finds is legal; for a non-empty word every legal placement is found, so one is found whenever a legal placement exists; for the empty word none is found iff the grid has no empty cell |
| Scheduler.InHandPlaceable | main.py:117-122 | with clean words, a backtracked word, or the first word on the blank grid, has a legal placement |
| Scheduler.NeverInfeasible | main.py:118-120 | with clean words, the empty-stack error is never reached |
| Scheduler.ProgressAfterPop | main.py:118-123 | a backtrack step keeps the builder's invariant; the popped word's letters are still on the grid at its recorded placement |
| Scheduler.ProgressAfterPush | main.py:124-130 | a placement step keeps the builder's invariant: stacked words stay written, the new one included, and every word is accounted for |
| Scheduler.Advance | main.py:124-130 | some found position is chosen and recorded; the new grid is the old one with the word in hand written there; the word is pushed with the same grid, the last available word is dropped and the next taken in hand; a backtracked clean word re-placed at its recorded placement leaves the grid unchanged; the loop invariant is kept |
| Scheduler.PlaceAll | main.py:110-130 | the loop ends done, infeasible, or out of steps; it is infeasible only with an empty stack and a word in hand, one of the input words, that has no legal placement (for the empty word, on a grid without empty cells), and never for clean words; when done, every checkpoint shares the one grid, and for clean words the stack holds each input word once, written at its placement |
| Scheduler.MakePuzzle | main.py:100-137 | an empty list is the index error; the too-long error happens iff some word is longer than both dimensions; the infeasible error comes only with an empty stack and an input word without a legal placement (for the empty word, on a grid without empty cells), and never for clean words; a finished puzzle has no empty cell and, for clean words, every input word exactly once, readable at its placement |

## Left out

- `getWords`, `showWords`, `showPuzzle` and `main` (main.py:140-167) read the word file and print to the console. They are I/O and are not modelled. `getWords` can yield an empty word from a blank line; such a word is not clean.
- `random.choice` (main.py:124, main.py:136) is an arbitrary pick: any found position, or any letter `A`-`Z`. Seeding and uniformity are not modelled.
- Python's exception types are outcomes: `EmptyWordList`, `WordTooLong`, `Infeasible`, and `IndexOutOfRange`/`LetterMismatch` in the used-location finder. The f-string on main.py:34 names an undefined `position`, so the code raises a `NameError` there rather than the `RuntimeError`. The model returns `LetterMismatch`.
- Scheduler.MakePuzzle: termination is not guaranteed by the code, so the loop takes a `fuel` bound and reports `OutOfFuel` when it runs out. No claim is made about how many steps suffice.
- Scheduler.MakePuzzle: the word accounting and the "never infeasible" result are stated only for clean words (non-empty, no `'.'`). For other words a popped word may fail to re-place, and the requeue can then drop a word.
- Executor.PlaceWord: requires every cell of the placement on the grid. The code is only called with found, legal placements. Python's negative-index wrap-around for other placements is not modelled.
- Finder.WordPositionsComplete: requires a non-empty word. An empty word is legal everywhere, but the scan only finds it at empty cells.
- The width and height are the constant 12 of main.py:6-7. The grid is square, so a word that fits at all fits along the top row.
- The source's loops are separate methods, so that each proof stays small. `Finder.DriftScan` is the direction loop of main.py:35-50. `Finder.ScanRow` and `Finder.ScanUsedCell` are the loops of main.py:78-85 and main.py:83-85. `Scheduler.PlaceAll` is the `while` loop of main.py:110-130. `Scheduler.Advance` is the body of its forward step, main.py:124-130. `Scheduler.Candidates` is the scan call of main.py:117.
