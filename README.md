# Flipboard display: a verified model of its text layout and tile logic

This project models the discrete core of `react-version.tsx`, a React
split-flap ("flipboard") display. The display shows a quote on a board of
`boardWidth × boardHeight` character tiles. The model covers four parts:

- the word wrapper `wrapText`: it cuts the text into paragraphs at line
  feeds and into words at single spaces, then packs the words greedily into
  lines of at most `maxWidth` characters. A word longer than that is cut
  into `maxWidth`-sized chunks. There is a punctuation break, and only the
  first 20 lines are kept;
- the layout pass of the `FlipboardDisplay` component. It lays the lines
  out on a grid padded with spaces and cuts lines at the right edge. It
  keeps the grid shown before as the "previous" grid, and each tile looks
  up its old character there, with a space for a missing cell;
- the per-tile decision of `FlipCharacter`: whether the tile flips, and
  the durations, delays and easings handed to its two halves;
- the quote carousel index, moved forward and back modulo the number of
  quotes.

Modules:

- `Text`: the JavaScript string primitives used. These are `split` with a
  one-character separator (keeping the empty pieces of repeated
  separators), `trim` (over ECMAScript's WhiteSpace and LineTerminator
  characters), and `Ink`, the visible characters of a string.
- `Wrap`: the wrapper. The functions `PlaceWord`, `Step`, `Pack`,
  `ParagraphLines`, `AllLines` and `Wrap` specify it one pass of a loop at
  a time. The methods `PushChunks`, `WordStep`, `PackWords`, `WrapEach`
  and `WrapText` are its three nested loops and the body of the word loop,
  each proved to compute its function.
- `Grid`: the grid-building loops (`BuildGrid`, over an `array` per row)
  and the predicate `IsGridOf` that describes their result.
- `Tile`: the classification and timing of one tile.
- `Display`: the component's state as a class `FlipboardDisplay`, with the
  fields `characterGrid` and `prevCharacterGrid` and the layout pass
  `Update`.
- `Rotation`: `handleNext` and `handlePrevious`.

What is proved, in short:

- **Bounds.** `wrapText` returns at most 20 lines, and no line is longer
  than `maxWidth`.
- **Blank paragraphs.** A blank paragraph gives exactly one empty line.
  Any other paragraph gives no empty line. The empty text gives `[""]`.
- **Text is kept.** Before truncation, the wrapped lines hold exactly the
  visible characters of the text, in order.
- **Long words.** An over-long word is pushed as consecutive chunks that
  spell it. All chunks but the last are exactly `maxWidth` long, and they
  start on a fresh line.
- **The punctuation break never changes the output.** Its guard asks that
  the next word *not* fit after the line (react-version.tsx:166), so the
  next pass would break there anyway. The comment above that guard says
  "the next word would fit". `PackIsGreedy` proves that wrapping with the
  break equals plain greedy packing, word for word.
- **The grid.** A layout pass yields exactly `boardHeight` rows of exactly
  `boardWidth` cells, each holding the line's character or a space. The
  old grid becomes the previous one. Laying out the same text twice
  flips no tile, and on the first pass exactly the non-space tiles flip.
- **Tiles.** A tile flips exactly when its shown character changes. A
  still tile runs linearly in `flipDuration` from time 0. A flipping
  tile's timing stays within the jitter bounds, and its second half
  starts when the first ends.
- **The carousel.** Forward and back each keep the index in range and
  undo each other. Sixteen presses forward come back to the start.

## Model

| member | source | states |
|---|---|---|
| Text.TrimStart | react-version.tsx:115 | removes a leading run of white characters only, and the result does not start with one |
| Text.IsWhite | react-version.tsx:115 | the characters `trim` removes, ECMAScript's WhiteSpace and LineTerminator; `Text.TrimStart`, `Text.TrimEnd` and `Text.Trim` are stated over it |
| Text.TrimEnd | react-version.tsx:115 | removes a trailing run of white characters only, and the result does not end with one |
| Text.Trim | react-version.tsx:115 | the trimmed string is empty exactly when the input is all white space, and otherwise neither starts nor ends with white space |
| Text.TrimIsMiddle | react-version.tsx:115 | the trimmed string is the middle of the input: what `trim` removes is a white run at the start and a white run at the end |
| Text.InkOfTrim | react-version.tsx:129-130 | trimming removes white space only: the visible characters are unchanged |
| Text.Split | react-version.tsx:112 | `split` yields at least one piece, no piece holds the separator, and joining the pieces with it gives the input back |
| Text.SplitJoin | react-version.tsx:120 | splitting a joined list of separator-free pieces gives the pieces back |
| Text.InkOfJoin | react-version.tsx:112 | joining paragraphs with a line feed adds no visible character |
| Wrap.Flush | react-version.tsx:129-130 | the flush of the current line (`if (currentLine.trim()) lines.push(currentLine.trim())`); `Wrap.FlushFacts` states what it pushes |
| Wrap.IsBlank | react-version.tsx:115 | the blank-paragraph test `paragraph.trim() === ""`; `Wrap.BlankParagraphIff` states what a blank paragraph yields |
| Wrap.NextWord | react-version.tsx:125 | `words[i + 1]`, with the missing word past the end read as `""`, which is falsy like `undefined`; `Wrap.Step` and `Wrap.Pack` take the next word from it |
| Wrap.EndsWithBreakMark | react-version.tsx:157-160 | the word ends with `.`, `!`, `?` or `,`; `Wrap.BreakLineNotBlank` uses it to show that the break pushes a visible line |
| Wrap.NearLineEnd | react-version.tsx:167 | the 70% test `currentLine.length > maxWidth * 0.7`, compared exactly as `10 * length > 7 * width`; `Wrap.PackIsGreedy` holds whatever it yields |
| Wrap.PlaceWord | react-version.tsx:128-151 | the long-word path, then the fit or overflow path, of one word; `Wrap.PlaceWordFits`, `Wrap.PlaceWordInk`, `Wrap.PlaceWordOnEmpty` and `Wrap.PlaceWordOverflowing` state what it does |
| Wrap.BreaksAfter | react-version.tsx:155-167 | the guard of the punctuation break; `Wrap.BreakLineNotBlank` and `Wrap.PackIsGreedy` state its effect |
| Wrap.Step | react-version.tsx:121-172 | one full pass of the word loop; `Wrap.StepFits`, `Wrap.StepInk`, `Wrap.StepJoins`, `Wrap.StepOverflows` and `Wrap.LongWordStartsFreshLine` state what it does, and `Wrap.WordStep` is proved to compute it |
| Wrap.Pack | react-version.tsx:120-177 | the lines of a paragraph's word loop and final flush; `Wrap.PackFits`, `Wrap.PackInk` and `Wrap.PackIsGreedy` state its properties, and `Wrap.PackWords` is proved to compute it |
| Wrap.ParagraphLines | react-version.tsx:115-177 | the lines one paragraph contributes; `Wrap.ParagraphLinesFit`, `Wrap.BlankParagraphIff` and `Wrap.ParagraphInk` state its properties |
| Wrap.WrapParagraphs | react-version.tsx:114-179 | the lines of every paragraph, concatenated in order; `Wrap.WrapParagraphsFit` and `Wrap.WrapParagraphsInk` state its properties, and `Wrap.WrapEach` is proved to compute it |
| Wrap.AllLines | react-version.tsx:112-179 | the lines pushed for the text's `split("\n")` paragraphs, before `slice(0, 20)`; `Wrap.AllLinesKeepText` states that they hold the text's visible characters |
| Wrap.Wrap | react-version.tsx:108-184 | the result of `wrapText`; `Wrap.WrapFits`, `Wrap.WrapEmpty`, `Wrap.AllLinesKeepText` and `Wrap.QuickBrownFox` state its properties, and `Wrap.WrapText` is proved to compute it |
| Wrap.Chunks | react-version.tsx:135-137 | the chunks of an over-long word spell the word, each is 1 to `maxWidth` long, and all but the last are exactly `maxWidth` long |
| Wrap.ChunkCount | react-version.tsx:135 | the number of chunks is the least `k` with `k * maxWidth >= length`, as the `j += maxWidth` loop takes |
| Wrap.PushChunks | react-version.tsx:135-137 | the chunk loop appends exactly the chunks of the word to the lines |
| Wrap.WordStep | react-version.tsx:121-172 | one pass of the word loop (the long-word path, the fit or overflow path, and the punctuation break) appends exactly what `Step` emits and leaves `Step`'s current line |
| Wrap.PackWords | react-version.tsx:120-177 | the word loop and the final flush append exactly `Pack` of the paragraph's words |
| Wrap.WrapEach | react-version.tsx:114-178 | the paragraph loop yields exactly the concatenated lines of every paragraph, in order |
| Wrap.WrapText | react-version.tsx:108-184 | `wrapText` computes `Wrap`: the first 20 of the lines, so at most 20, each at most `maxWidth` long |
| Wrap.PlaceWordFits | react-version.tsx:128-151 | placing a word keeps the current line within `maxWidth` and pushes only non-empty lines that fit |
| Wrap.StepFits | react-version.tsx:128-172 | one pass of the word loop keeps the current line within `maxWidth` and pushes only non-empty lines that fit |
| Wrap.BreakLineNotBlank | react-version.tsx:155-170 | the line the punctuation break pushes ends with the punctuated word, so it is never blank |
| Wrap.PackFits | react-version.tsx:120-177 | every line a paragraph's word loop pushes is non-empty and at most `maxWidth` long |
| Wrap.ParagraphLinesFit | react-version.tsx:114-177 | a blank paragraph gives `[""]`; any other paragraph gives non-empty lines; all fit |
| Wrap.BlankParagraphIff | react-version.tsx:115-118 | a paragraph gives exactly the single line "" if and only if it is blank |
| Wrap.ParagraphLinesNonEmpty | react-version.tsx:114-177 | every paragraph, blank or not, gives at least one line |
| Wrap.WrapParagraphsFit | react-version.tsx:114-178 | all lines of all paragraphs fit within `maxWidth` |
| Wrap.WrapFits | react-version.tsx:128-183 | `wrapText` returns at most 20 lines, each at most `maxWidth` long |
| Wrap.WrapEmpty | react-version.tsx:112-118 | `wrapText("", w)` is `[""]` |
| Wrap.FlushFacts | react-version.tsx:128-177 | a flush pushes at most one line, which is non-empty, no longer than the current line, and holds its visible characters |
| Wrap.PlaceWordInk | react-version.tsx:128-151 | placing a word neither loses nor adds a visible character: pushed lines plus current line hold those of the old line and the word |
| Wrap.StepInk | react-version.tsx:128-172 | the same for one full pass, the punctuation break included |
| Wrap.PackInk | react-version.tsx:120-177 | the lines a paragraph gives hold exactly the visible characters of the current line and the remaining words |
| Wrap.ParagraphInk | react-version.tsx:114-177 | a paragraph's lines hold exactly its visible characters |
| Wrap.WrapParagraphsInk | react-version.tsx:114-178 | the lines of all paragraphs hold exactly their visible characters |
| Wrap.AllLinesKeepText | react-version.tsx:108-179 | before truncation, the wrapped lines hold exactly the visible characters of the text, in order |
| Wrap.LongWordStartsFreshLine | react-version.tsx:128-138 | an over-long word pushes the flushed current line, then its chunks, and leaves a blank current line |
| Wrap.PlaceWordOnEmpty | react-version.tsx:128-146 | on an empty line, an over-long word pushes just its chunks and any other word becomes the line |
| Wrap.PlaceWordOverflowing | react-version.tsx:128-151 | a word that overflows a visible current line pushes that line trimmed, before its chunks or before starting the next line with it |
| Wrap.PlaceWordAfterOverflow | react-version.tsx:128-151 | placing a word that overflows a visible current line pushes that line trimmed, then does what it would do on an empty line |
| Wrap.BreakMatchesOverflow | react-version.tsx:144-170 | pushing a visible line early, just before a word that overflows it, gives the same lines as letting greedy packing push it |
| Wrap.PackIsGreedy | react-version.tsx:155-172 | the word loop with the punctuation break pushes exactly the lines of plain greedy packing |
| Wrap.PunctuationBreakIsRedundant | react-version.tsx:155-172 | every paragraph is wrapped exactly as plain greedy packing wraps it |
| Wrap.StepJoins | react-version.tsx:141-146 | a word that fits after the current line, and ends no clause, is appended to it and nothing is pushed |
| Wrap.StepOverflows | react-version.tsx:141-151 | a word that does not fit, and ends no clause, flushes the current line and starts the next one |
| Wrap.TwoLines | react-version.tsx:120-177 | four words, where the third overflows the first two and the last two fit together, wrap into exactly two lines |
| Wrap.TwoLinesText | react-version.tsx:108-184 | the same four words as a text: `wrapText` returns exactly those two lines |
| Wrap.QuickBrownFox | react-version.tsx:108-184 | `wrapText("The quick brown fox", 10)` is `["The quick", "brown fox"]` |
| Grid.CellChar | react-version.tsx:227-232 | the cell at row `y`, column `x`: the line's character where the line has one, else the space the row was filled with; `Grid.IsGridOf`, `Grid.GridRows` and `Grid.BuildGrid` are stated over it |
| Grid.FitRow | react-version.tsx:227-232 | a line fitted to a row is exactly `boardWidth` long |
| Grid.BuildGrid | react-version.tsx:224-234 | the grid loops build exactly `boardHeight` rows of `boardWidth` cells: cell (y, x) is `lines[y][x]` where that exists, a space otherwise |
| Grid.GridUnique | react-version.tsx:224-234 | the grid of given lines and dimensions is unique |
| Grid.GridRows | react-version.tsx:226-233 | each row is its line cut or padded with spaces to `boardWidth`; rows past the last line are all spaces |
| Grid.LineShownInFull | react-version.tsx:228-232 | a line no wider than the board is shown in full at the left of its row, followed by spaces only |
| Grid.PrevCell | react-version.tsx:257 | `prevCharacterGrid?.[y]?.[x] \|\| " "` over the previous grid; `Grid.PrevCellOfGrid` states its value |
| Grid.PrevCellOfGrid | react-version.tsx:257 | a tile's previous character is the old grid's cell, or a space outside the old grid's dimensions |
| Display.Layout | react-version.tsx:214-222 | the lines a layout pass uses: with wrapping on, at most 20 lines each within `boardWidth`; with it off, the pieces of `split("\n")`: at least one, none holding a line feed, joining back to the text |
| Display.FlipboardDisplay.constructor | react-version.tsx:200-201 | both grids start empty |
| Display.FlipboardDisplay.Update | react-version.tsx:211-237 | the old grid becomes the previous grid, and the new grid is the board of the wrapped or line-split text |
| Display.FlipboardDisplay.PrevChar | react-version.tsx:257 | the previous character handed to the tile at (y, x), read from the `prevCharacterGrid` field through `Grid.PrevCell` |
| Display.FlipboardDisplay.TilePlan | react-version.tsx:252-260 | the tile rendered at (y, x): its character from `characterGrid`, its previous character from `PrevChar`, planned by `Tile.Plan` |
| Display.RepeatedLayoutIsStill | react-version.tsx:211-257 | after laying out the same lines twice on the same board, no tile flips |
| Display.FirstLayoutFlipsInk | react-version.tsx:200-257 | on the first pass a tile flips exactly when its cell is not a space |
| Display.WrappedLinesShownInFull | react-version.tsx:216-234 | with wrapping on, every wrapped line on a row the board has is shown in full, followed by spaces only |
| Tile.SafeChar | react-version.tsx:12-13 | `c \|\| " "`: the empty string shows as a space, any other string as itself |
| Tile.ShouldAnimate | react-version.tsx:12-20 | a tile flips if and only if its shown character differs from its shown previous character |
| Tile.UnchangedNeverAnimates | react-version.tsx:12-20 | an unchanged tile never flips, and neither does "" against " " |
| Tile.ThreeTileExample | react-version.tsx:12-20 | "a" over "a" stays still; "x" over " " and "y" over "b" flip |
| Tile.Plan | react-version.tsx:22-92 | the tile's timing: jittered duration and delay for a flipping tile, plain ones otherwise, split into two halves; `Tile.StillTile`, `Tile.ChangingTileBounds` and `Tile.HalvesMeet` state its properties |
| Tile.StillTile | react-version.tsx:22-92 | a still tile uses `flipDuration` split evenly, linear easing, and starts at time 0 |
| Tile.ChangingTileBounds | react-version.tsx:22-92 | with draws in [0, 1), a flipping tile lasts from 80% up to 120% of `flipDuration`, starts within 0.2 s after its delay, and eases in-out then out |
| Tile.HalvesMeet | react-version.tsx:70-92 | the second half starts exactly when the first half ends, and both last half the duration |
| Rotation.QuoteCount | react-version.tsx:272-305 | the number of quotes in the carousel's `contents` list, 16; `Rotation.FullCycle` is stated for it |
| Rotation.Next | react-version.tsx:307-309 | one step forward stays below `n`, adds one, and wraps from the last index to 0 |
| Rotation.Previous | react-version.tsx:311-315 | one step back subtracts one, wraps from 0 to the last index, and stays in range |
| Rotation.NextPreviousInverse | react-version.tsx:307-315 | forward and back undo each other on every valid index |
| Rotation.Forward | react-version.tsx:307-309 | `k` steps forward stay in range |
| Rotation.ForwardIsShift | react-version.tsx:307-309 | `k` steps forward move the index to `(i + k) mod n` |
| Rotation.FullCycle | react-version.tsx:272-309 | sixteen steps forward, one per quote, return to the starting quote |

## Left out

- JSX, CSS, hover handlers and page layout are presentation only. So is the `framer-motion` animation library (the rotation angles and key handling of `motion.div`). Only the numbers handed to it are modelled.
- `getStaggeredDelay` uses floating-point `Math.sqrt`. The staggered delay is a parameter of `Tile.Plan` and `Display.FlipboardDisplay.TilePlan`.
- `Math.random`: the two draws are the parameters `r1` and `r2`.
- Floating-point timing is modelled over exact reals. Rounding of `flipDuration * (0.8 + r * 0.4)` and the other products is not modelled.
- Wrap.NearLineEnd tests `currentLine.length > maxWidth * 0.7` exactly, as `10 * length > 7 * width`. In IEEE doubles, `w * 0.7` rounds below `7w/10` for some widths (90, 170, 180, 330, …), where a line of exactly `7w/10` characters passes the source's test but not the model's. The punctuation break changes no output either way (Wrap.PackIsGreedy does not depend on this test).
- Wrap.WrapText requires `maxWidth >= 1`. With `maxWidth <= 0`, the chunk loop never ends once a paragraph has a non-empty word, so those inputs have no result. The requires also excludes texts whose paragraphs are all blank at `maxWidth <= 0`: there the source never reaches the word loop and returns one `""` per paragraph (so `wrapText("", 0)` is `[""]`), which the model does not state. Display.FlipboardDisplay.Update and Display.Layout require the same when wrapping is on.
- String lengths and indices are those of Dafny's `char` sequences. JavaScript counts UTF-16 code units, which differ for characters outside the Basic Multilingual Plane.
- The grid dimensions are `nat`. The `RangeError` that `Array(n)` throws for a negative or fractional `boardWidth` is not modelled. Neither is a negative `boardHeight`, for which the row loop never runs and the grid is `[]`, nor a fractional one, for which it runs `ceil(boardHeight)` times; neither raises an error. The props' default values (50, 15, 0.4, true) are left to the caller.
- React's scheduling (`useState`, `useEffect` dependencies, re-rendering, `React.memo`) is not modelled. The effect body is the method `Update`, and the two `set…` calls are its two field assignments.
- The quotes themselves are not modelled, only their number (16), and neither are the index's display and the navigation buttons' markup.
- The single `wrapText` function is modelled as one method per loop (`WrapText`, `WrapEach`, `PackWords`, `PushChunks`), plus `WordStep` for the body of the word loop, whose `continue` becomes an `else`. Together they do the same steps in the same order.
