# Tower of Hanoi, command-line game: a Dafny model

This project models the core of the command-line Tower of Hanoi game in
`tower-of-hanoi.py`. The game puts a tower of `n` disks (3 to 19, largest at
the bottom) on a randomly chosen peg A, B or C. It then repeats three steps:

- draw the three pegs as text;
- read one move such as `AC` (from A to C), or `QUIT`;
- declare a win once a peg other than the starting one holds all `n` disks.

The model is functional. A board is an immutable `Towers` value with three
sequences of disk sizes, each listed bottom first. Each step of the script
is a pure function over that value:

| module | file | what it models |
|---|---|---|
| `Board` | `board.dfy` | the board, the starting position, and the invariant a legal game keeps |
| `Moves` | `moves.dfy` | `make_player_move`: input normalisation, the quit keyword, the six move tokens, the two rule checks, pop and push |
| `MoveFacts` | `move_facts.dfy` | what input is recognised, that legal moves keep the board valid, and that a move can be undone |
| `Win` | `win.dfy` | `check_win`, and what a win means on a valid board |
| `Display` | `display.dfy` | `display_towers`: the printed lines, in print order |
| `DisplayFacts` | `display_facts.dfy` | the shape of every column and of the header, and a reader that recovers the board from the picture |
| `Game` | `game.dfy` | the loop in `main`, over a finite sequence of input lines |

Three things the script does by side effect are represented as data:

- The random starting peg is a parameter.
- The script calls `sys.exit` on `QUIT`, and re-prompts after a rejected line. The model returns an `Outcome` instead: `Quitting`, `Rejected(why)` or `Moved(next)`.
- The console becomes a sequence of lines. `Game.Play` reads them in order and reports how the game ended.

A board of `n` disks is `Valid` when two things hold:

- every peg is strictly decreasing from bottom to top;
- the multiset of all sizes is exactly `1..n`.

The starting board is valid, and every accepted move keeps it valid. On a
valid board, "a peg other than the start holds `n` disks" is the same as
"the full tower `n, ..., 1` stands on another peg".

## Model

| member | source | states |
|---|---|---|
| Board.Init | tower-of-hanoi.py:100-103 | the starting peg holds `range(n, 0, -1)` (the reference `Descending(n)`), and the other two pegs are empty |
| Board.InitValid | tower-of-hanoi.py:100-103 | the starting peg holds `n` disks with size `n - i` at height `i`, and the board is valid: strictly decreasing pegs, sizes 1..n once each |
| Board.Descending | tower-of-hanoi.py:103 | `range(n, 0, -1)` has `n` elements, element `i` is `n - i`, and its multiset is exactly the sizes 1..n |
| Board.Disks | tower-of-hanoi.py:103 | the multiset of disk sizes holds each of 1..n exactly once and nothing else |
| Board.ValidSizes | tower-of-hanoi.py:103 | every disk on a valid board has a size between 1 and n |
| Board.ValidCount | tower-of-hanoi.py:103 | a valid board holds exactly n disks, so no peg holds more than n |
| Moves.UpperAt | tower-of-hanoi.py:62 | `Moves.Upper`, the model of `upper()`, maps each character independently: `a`..`z` to `A`..`Z`, everything else kept |
| Moves.Strip | tower-of-hanoi.py:62 | after `strip()` neither end of the text is whitespace |
| Moves.StripSlice | tower-of-hanoi.py:62 | `strip()` returns a contiguous part of its input, and everything cut off on either side is whitespace |
| Moves.StripUnpadded | tower-of-hanoi.py:62 | `strip()` leaves a text alone when neither end is whitespace |
| Moves.Normalize | tower-of-hanoi.py:62 | `upper().strip()` is never longer than the line and has no whitespace at either end |
| Moves.ParseToken | tower-of-hanoi.py:63-73 | on a normalised line: quit exactly for `QUIT`; a move exactly for the six tokens, naming two distinct pegs by their letters; anything else is rejected |
| Moves.ParseMove | tower-of-hanoi.py:62-73 | the same three cases, stated for the raw line after `upper().strip()` |
| Moves.ValidMoveLetters | tower-of-hanoi.py:67-73 | each of the six tokens has two characters, both peg letters, and they differ |
| Moves.MoveTop | tower-of-hanoi.py:83 | `to.append(from.pop())`: the source loses its top, the destination gains that disk on top, and the third peg is unchanged |
| Moves.MoveTopKeepsContents | tower-of-hanoi.py:83 | a move keeps the multiset of disks on the board |
| Moves.MoveTopKeepsCount | tower-of-hanoi.py:83 | a move keeps the number of disks on the board |
| Moves.Step | tower-of-hanoi.py:72-83 | a move is refused exactly when the source is empty, or the destination's top is smaller than the source's top; an empty source is reported as such; an accepted move is `MoveTop` and keeps the disks |
| Moves.PlayerMove | tower-of-hanoi.py:62-83 | one input line quits exactly when it normalises to `QUIT`; it is rejected as invalid exactly when it normalises to neither `QUIT` nor a move token; a move token leads to exactly the rule checks and move of `Step` on the two pegs it names, and only a move token moves a disk |
| MoveFacts.ParsePadded | tower-of-hanoi.py:62 | surrounding whitespace never changes what a line denotes |
| MoveFacts.ParseCaseInsensitive | tower-of-hanoi.py:62 | upper-casing a line first never changes what it denotes |
| MoveFacts.ParseMoveComplete | tower-of-hanoi.py:67-73 | converse of `ParseMove`: every ordered pair of distinct pegs, typed as two letters, is recognised as exactly that move |
| MoveFacts.PlayerMoveSteps | tower-of-hanoi.py:62-83 | any line that normalises to two distinct peg letters plays exactly that move, from the first peg to the second |
| MoveFacts.StripPadded | tower-of-hanoi.py:62 | `strip()` removes any whitespace padding on either side |
| MoveFacts.DistinctTops | tower-of-hanoi.py:77 | on a valid board two pegs never show tops of equal size, so the `<` test leaves no tie |
| MoveFacts.MoveTopDecreasing | tower-of-hanoi.py:77-83 | moving onto an empty peg or a larger top keeps every peg strictly decreasing |
| MoveFacts.StepPreservesValid | tower-of-hanoi.py:72-83 | every accepted move turns a valid board into a valid board |
| MoveFacts.PlayerMovePreservesValid | tower-of-hanoi.py:62-83 | no input line leaves a valid board invalid |
| MoveFacts.StepUndo | tower-of-hanoi.py:72-83 | on a valid board, the move from x to y is undone by the move from y to x: that move is legal and restores the board exactly |
| MoveFacts.UndoAccepted | tower-of-hanoi.py:74-79 | after a move from x to y, moving back from y to x passes both rule checks |
| MoveFacts.UndoRestores | tower-of-hanoi.py:83 | pop-then-append from x to y, then from y to x, is the identity |
| Win.WinAmong | tower-of-hanoi.py:91-94 | the loop over the pegs answers true exactly when some listed peg other than the start holds `n` disks |
| Win.CheckWin | tower-of-hanoi.py:86-94 | the game is won exactly when some peg other than the starting peg holds `n` disks |
| Win.InitNotWon | tower-of-hanoi.py:86-94 | the starting board is never a win |
| Win.FullPeg | tower-of-hanoi.py:92 | a strictly decreasing peg of `n` sizes from 1..n is the full tower `n, ..., 1` |
| Win.WonMeansTransferred | tower-of-hanoi.py:86-94 | on a valid board, `check_win` holds exactly when the complete tower `n, ..., 1` stands on a peg other than the start |
| Win.WonOthersEmpty | tower-of-hanoi.py:86-94 | on a valid board, a win leaves the other two pegs empty |
| Display.Repeat | tower-of-hanoi.py:43-44 | `ch * k` has `max(k, 0)` characters, all `ch` |
| Display.NatString | tower-of-hanoi.py:45 | `str(d)` of a natural number is one or more decimal digits, one exactly when `d < 10`, with no leading zero |
| DisplayFacts.NatStringValue | tower-of-hanoi.py:45 | the digits `str(d)` prints, read back in base ten, give `d` |
| Display.IntString | tower-of-hanoi.py:45 | `str(d)` of an integer is a minus sign exactly when `d` is negative, then one or more decimal digits with no leading zero |
| DisplayFacts.IntStringValue | tower-of-hanoi.py:45 | `str(d)` of any integer reads back as `d`: a minus sign negates the value of the digits after it |
| Display.RJust | tower-of-hanoi.py:45 | `s.rjust(width, fill)` has length `max(len(s), width)`, ends with `s`, and is `fill` before it |
| Display.Reverse | tower-of-hanoi.py:50 | `reversed` puts the element `len(s) - 1 - i` at position `i` |
| Display.Render | tower-of-hanoi.py:29-51 | `n + 2` lines are printed: line `k` for `k <= n` is the row for height `n - k`, and the header comes last |
| DisplayFacts.LabelShape | tower-of-hanoi.py:45 | `Display.Label`, the model of `str(d).rjust(2, "_")`, writes sizes 1..99 as `_d` below ten and as their two digits from ten on |
| DisplayFacts.DiskCellShape | tower-of-hanoi.py:43-46 | `Display.DiskCell`: a disk of size `d` is `n - d` blanks then `d` at-signs, its label at columns `n` and `n + 1`, then the mirror image: `2n + 2` characters |
| DisplayFacts.EmptySlotShape | tower-of-hanoi.py:36 | `Display.EmptySlot`: an empty height is `n` blanks, the two-bar post, and `n` blanks |
| DisplayFacts.CellWidth | tower-of-hanoi.py:37-46 | `Display.Cell`: on a valid board every column of every row is `2n + 2` characters wide |
| DisplayFacts.HeaderShape | tower-of-hanoi.py:31-35 | `Display.Header`: the header is `5n + 6` characters: each peg letter sits above the right-hand mark of its own post, with blanks everywhere else |
| DisplayFacts.RowCells | tower-of-hanoi.py:38-48 | `Display.Row`: each row is three columns wide, and `Display.Cell` shows pegs A, B and C in that order |
| DisplayFacts.TopRowEmpty | tower-of-hanoi.py:37-41 | the first printed line shows all three posts empty, since no peg of a valid board reaches height `n` |
| DisplayFacts.ReadDiskCell | tower-of-hanoi.py:43-46 | a disk's column reads back as that disk |
| DisplayFacts.ReadEmptySlot | tower-of-hanoi.py:36 | an empty height reads back as empty |
| DisplayFacts.RenderSlots | tower-of-hanoi.py:37-51 | in the picture of a valid board, each peg at each height shows its disk there, or is empty above its top |
| DisplayFacts.ReadPegBack | tower-of-hanoi.py:37-51 | reading one column of the picture bottom up gives that peg |
| DisplayFacts.RenderReadBack | tower-of-hanoi.py:29-51 | the picture of a valid board determines the board: reading it back gives the towers that were drawn |
| Game.FirstQuit | tower-of-hanoi.py:62-65 | the position of the first line the quit test accepts; no earlier line is accepted |
| Game.ReplayValid | tower-of-hanoi.py:110-117 | playing any lines one after another keeps a valid board valid |
| Game.PlayValid | tower-of-hanoi.py:100-117 | every board reached from the starting board is valid |
| Game.MoveCountBound | tower-of-hanoi.py:110-117 | no more disks move than lines are read |
| Game.NoMovesNoChange | tower-of-hanoi.py:110-117 | lines that move no disk leave the board as it was |
| Game.SkipLine | tower-of-hanoi.py:63-79 | a line that moves no disk leaves the board and the move count alone, and cannot produce a win |
| Game.Turn | tower-of-hanoi.py:110-112 | one line: a disk moves exactly when `make_player_move` accepts the line, the board is then the one it produces and otherwise the old one, and it stays valid |
| Game.PlayUntil | tower-of-hanoi.py:110-117 | lines are played in order up to a bound; the loop stops right after the first move that wins, and otherwise reads every line up to the bound; the board is the replay of the lines read, and the count is how many of them moved a disk |
| Game.Session | tower-of-hanoi.py:110-117 | for any answer to a line that never moves on a quit line: the final board is the replay of the lines read, the move count counts moving lines, the game ends solved exactly on a win after at least one move and no earlier win, quits exactly on the first quit line, and otherwise reads all input |
| Game.Play | tower-of-hanoi.py:97-117 | from the starting board: the final board is the replay of the lines read through `make_player_move`, `moves` counts the lines that moved a disk, the board stays valid; the game ends solved exactly when `check_win` holds, after at least one move and with no earlier win; it ends quit exactly on the first `QUIT` line; otherwise all input was read |

## Left out

- `get_arguments` (lines 13-26): argument parsing is not modelled. `Board.DiskCountAllowed` states the accepted range 3..19, and `Game.Play` requires it.
- The random choice of starting peg (line 102) is a parameter of `Init` and `Play`.
- Console output is not modelled: the welcome text, the prompt and the wording of every message. A rejection is reported as `InvalidToken`, `EmptySource` or `OntoSmaller` instead of printed text.
- `sys.exit()` on `QUIT` (line 65) becomes the `Quitting` outcome, and the `Quitted` ending of `Play`.
- The console is an unbounded interactive stream, modelled as a finite sequence of lines. When the lines run out, `Play` ends with `OutOfInput`. The script would keep prompting while its input stays open; at end of file, `input()` (line 56) raises `EOFError` and the script stops with a traceback.
- `Play` locates the first `QUIT` line up front, with `FirstQuit`. The ending is the same as testing each line in turn: the quit test looks only at the line itself, and the loop stops at the first quit line unless a win stops it earlier. `Session` and `PlayUntil` are stated for any answer function and quit test; `Play` uses `PlayerMove` and `IsQuit`.
- `Play` does not model drawing the board before each prompt or after the win (lines 111 and 115). `Render` models that drawing on its own.
- Moves.Upper, Moves.Strip: Python's `str.upper()` and `str.strip()` are Unicode-aware. `Moves.Upper` only maps `a`..`z`, and `Moves.Strip` only removes the ASCII whitespace Python recognises (codes 9-13 and 28-32). This matters for inputs such as `ı` or `ſ`, which Python upper-cases to `I` and `S`, and for non-ASCII spaces.
- The `OrderedDict` (line 100) becomes three named fields A, B and C, iterated in that order by `check_win` and `display_towers`.
- DisplayFacts.DiskCellShape, DisplayFacts.CellWidth, DisplayFacts.RowCells, DisplayFacts.RenderReadBack: these and the other picture facts require `n <= 19`. They hold whenever a label has two characters, that is for sizes up to 99. The game never draws more than 19 disks.
- `Moves.Step` accepts `from == to` and leaves the board unchanged. Python pops and appends the same list, which has the same effect. The six move tokens never name one peg twice, so the game cannot reach this case.
