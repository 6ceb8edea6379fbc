# Tetris starter skeleton: a Dafny model of its working parts

The repository is the starting point of a browser Tetris game. Its game
engine (spawning, collision, rotation, line clears, scoring) is not written
yet: `GameLogic.start` only paints a few demonstration cells and sets a
demonstration score, and its key handlers only log. What the code does
implement, and what this project models and proves things about, is:

- **Levels** (`levels.dfy`): the `LEVEL_DELAYS` table and `getDelay`, which
  clamps a level into 1..10 and looks up its gravity delay in milliseconds.
- **Pieces** (`pieces.dfy`): the `PIECES` catalog of seven pieces, each with
  a 4x4 bitmap, a colour, an orientation count and `maxLines`.
- **Grid** (`grid.dfy`): the `GridPainter` class, a `rows` x `cols` matrix of
  cell colours initialised to a background colour, with a `paintCell` that
  validates its arguments in a fixed order before changing one cell.
- **Score** (`score.dfy`, with string helpers in `text.dfy`): the
  `ScoreDisplay` class, which substitutes its value for the first `{value}`
  of its format, splits the result into lines and shows them as text nodes
  separated by `<br>` elements; its `value` and `format` setters repaint.
- **Keyboard** (`keyboard.dfy`): the `Input` class, a set of held keys kept
  by the `keydown`/`keyup` listeners, which call the `onkeydown`/`onkeyup`
  callbacks only on real transitions.
- `wrappers.dfy` holds the `Option`, `Result` and `Outcome` datatypes.

The DOM is abstracted away. The grid's cells are an `array2<string>` of
background colours. The score element is the sequence of its children
(`TextNode(text)` or `LineBreak`). The window listeners are the methods
`KeyDown` and `KeyUp`, and a callback call is returned as a value naming the
handler and the event. JavaScript numbers used as levels, coordinates and
scores are modelled as mathematical integers.

A `color` argument to `paintCell` is one of `Str(s)`, `Null`, `Undefined` or
`NotAString` (a number, boolean or object). The source's error message says
`false` is accepted, but its check (`typeof color === "string"`, null or
undefined) rejects it. The model follows the check: `false` is `NotAString`
and is rejected.

## Model

| member | source | states |
|---|---|---|
| `Levels.Clamp` | src/constants/levels.ts:16 | the clamped level lies in 1..10, equals the level inside that range, and is 1 below it and 10 above it |
| `Levels.TableShape` | src/constants/levels.ts:2-13 | the `LEVEL_DELAYS` table (the constant `Levels.LevelDelays`): its keys are exactly 1..10 and the entry for level l is 550 - 50*l |
| `Levels.GetDelay` | src/constants/levels.ts:15-18 | the delay for any integer level is 550 - 50 times the clamped level |
| `Levels.DelayOnTable` | src/constants/levels.ts:2-13 | for a level in 1..10 the delay is that level's table entry, 550 - 50*level |
| `Levels.DelayIsClampedLookup` | src/constants/levels.ts:15-18 | for every integer level, the clamped level is a key and the delay is its table entry |
| `Levels.DelayOutsideTable` | src/constants/levels.ts:16 | a level below 1 gets 500 ms and a level above 10 gets 50 ms |
| `Levels.DelayMonotonic` | src/constants/levels.ts:2-13 | the delay never increases with the level, and strictly decreases between levels in 1..10 |
| `Levels.DelayRange` | src/constants/levels.ts:2-13 | every delay lies in 50..500 and is a multiple of 50 |
| `Levels.ClampIdempotent` | src/constants/levels.ts:16 | clamping twice equals clamping once, and clamping before `getDelay` does not change the delay |
| `Pieces.CatalogCells` | src/constants/pieces.ts:11-89 | the `PIECES` catalog (the constant `Pieces.Catalog`, built from the seven `Piece` records `O` to `T`): the occupied cells of each shape, as (row, column) pairs, are O {(1,1),(1,2),(2,1),(2,2)}, I all of row 1, S {(1,2),(1,3),(2,1),(2,2)}, Z {(1,1),(1,2),(2,2),(2,3)}, L {(1,1),(1,2),(1,3),(2,1)}, J {(1,1),(1,2),(1,3),(2,3)}, T {(1,1),(1,2),(1,3),(2,2)} |
| `Pieces.CatalogKeys` | src/constants/pieces.ts:11-89 | the catalog has exactly the seven keys O, I, S, Z, L, J and T |
| `Pieces.ShapesAreBitmaps` | src/constants/pieces.ts:11-89 | every shape is a 4x4 matrix whose entries are all 0 or 1 |
| `Pieces.FourCellsEach` | src/constants/pieces.ts:11-89 | every shape has exactly four cells equal to 1 |
| `Pieces.EdgeRowsEmpty` | src/constants/pieces.ts:11-89 | row 0 and row 3 of every shape are all zeros |
| `Pieces.OrientationCounts` | src/constants/pieces.ts:11-89 | O has 1 orientation; I, S and Z have 2; L, J and T have 4 |
| `Pieces.MaxLinesRange` | src/constants/pieces.ts:11-89 | every `maxLines` lies in 1..4, and it is 4 exactly for I |
| `Pieces.MaxLinesWithinBoundingBox` | src/constants/pieces.ts:11-89 | no piece's `maxLines` exceeds the longer side of the bounding box of its occupied cells |
| `Grid.WithDefaults` | src/gridpainter.ts:47-55 | a missing option takes its default (10 columns, 25 rows, `#ffffff`), and a supplied option overrides it |
| `Grid.PaintTarget` | src/gridpainter.ts:121-139 | the paint request fails exactly when x is outside [0, cols), y is outside [0, rows) or the colour is not a string, null or undefined; the x checks come before the y checks, and those before the colour check, each with its own error (`ColorNotString` for a colour that is not a string, null or undefined); on success the colour written is the given non-empty string, or the background colour for null, undefined or the empty string |
| `Grid.Painted` | src/gridpainter.ts:134-136 | painting keeps the grid's dimensions, sets cell (x, y), and leaves every other cell as it was |
| `Grid.PaintIdempotent` | src/gridpainter.ts:134-136 | painting the same cell with the same colour twice gives the same grid as painting it once |
| `Grid.GridPainter.constructor` | src/gridpainter.ts:45-71 | after construction the dimensions are the options with defaults applied, the matrix is `rows` x `cols`, and every cell holds the background colour |
| `Grid.GridPainter.Create` | src/gridpainter.ts:62-67 | construction fails with a range error exactly when `rows` is not a valid array length (negative, or 2^32 or more), or `rows` is positive and `cols` is not a valid array length; otherwise it yields a fresh, fully initialised grid |
| `Grid.GridPainter.PaintCell` | src/gridpainter.ts:121-140 | a failed paint reports the error of the first failing check and changes no cell; a successful one changes exactly cell (x, y), to the checked colour |
| `Text.DecimalString` | src/scoredisplay.ts:20 | an integer's text starts with a minus sign exactly when it is negative, the rest is decimal digits, and the numeral has no leading zero (a non-negative text starting with `0` is `"0"` itself; a negative one never has `0` after the sign), so with `Text.DecimalRoundTrip` it is the one shortest numeral of the integer |
| `Text.DecimalRoundTrip` | src/scoredisplay.ts:20 | reading the decimal text of an integer back gives the same integer |
| `Text.IndexOf` | src/scoredisplay.ts:20 | the search finds an occurrence of the token with none before it, or reports that there is none at all |
| `Text.ReplaceFirst` | src/scoredisplay.ts:20 | `replace` with a string pattern: a string without the token comes back unchanged, and when the token first occurs at i, the result is the text before i, then the replacement, then everything after that occurrence, later occurrences included |
| `Text.ReplaceFirstAbsent` | src/scoredisplay.ts:20 | a string without the token is left unchanged by the replacement |
| `Text.ReplaceFirstAt` | src/scoredisplay.ts:20 | when the first occurrence is at i, only that occurrence is replaced; the text after it is kept as it is |
| `Text.Split` | src/scoredisplay.ts:21 | splitting on newlines gives one more segment than there are newlines, and no segment contains a newline |
| `Text.JoinSplit` | src/scoredisplay.ts:21 | joining the segments with newlines gives back the original string |
| `Text.SplitJoin` | src/scoredisplay.ts:21 | splitting newline-free segments joined by newlines gives back the segments |
| `Score.Rendered` | src/scoredisplay.ts:20 | the rendered text is the format unchanged when it has no `{value}`, and otherwise the format with its first `{value}` replaced by the value's decimal text |
| `Score.RenderedWithoutToken` | src/scoredisplay.ts:20 | a format without `{value}` is shown exactly as it is |
| `Score.RenderedFirstToken` | src/scoredisplay.ts:20 | the value's decimal text replaces the first `{value}` only |
| `Score.Layout` | src/scoredisplay.ts:23-28 | n lines give 2n - 1 children: line k as the text node at position 2k, a `<br>` between consecutive lines |
| `Score.LayoutShowsLines` | src/scoredisplay.ts:23-28 | the children, reading `<br>` as a newline, show the lines joined by newlines, and there are one fewer `<br>` than lines |
| `Score.DisplayShowsRenderedText` | src/scoredisplay.ts:19-28 | the repainted element shows exactly the rendered text, with one `<br>` per newline in it |
| `Score.DefaultDisplay` | src/scoredisplay.ts:38-45 | with the default value 0 and format `{value}`, the text is `0` and the element holds the single text node `0` |
| `Score.ScoreDisplay.constructor` | src/scoredisplay.ts:33-53 | missing options default to value 0 and format `{value}`, supplied ones are kept, and the element shows them |
| `Score.ScoreDisplay.Repaint` | src/scoredisplay.ts:19-29 | the element's children become the layout of the rendered lines, whatever they were before, so repainting twice equals repainting once |
| `Score.ScoreDisplay.AppendLines` | src/scoredisplay.ts:23-28 | the `forEach` over the lines, starting from the cleared element, leaves exactly the layout of the lines: each line as a text node, with a `<br>` before every line after the first |
| `Score.ScoreDisplay.SetValue` | src/scoredisplay.ts:71-74 | the value is stored, the format is unchanged and the element shows the new text |
| `Score.ScoreDisplay.SetFormat` | src/scoredisplay.ts:84-87 | the format is stored, the value is unchanged and the element shows the new text |
| `Keyboard.Step` | src/input.ts:22-33 | after an event its key is held exactly when the event was a press, other keys are untouched, and the event counts as a transition exactly when it changed whether its key is held |
| `Keyboard.Run` | src/input.ts:22-33 | the listeners run over a sequence of events report the transitions as a subsequence of the events: each event is reported at most once, and in the order the events came (so there are no more transitions than events); keys no event is about keep their held state; and the key of the last event is held at the end exactly when that event was a press |
| `Keyboard.TransitionsAlternate` | src/input.ts:22-33 | over any sequence of events, the transitions of each key alternate press/release, starting with a press when the key was not held, and whether the key ends held follows from the parity of its transitions |
| `Keyboard.Input.constructor` | src/input.ts:7-19 | no key is held, and each callback slot holds the supplied callback or null |
| `Keyboard.Input.KeyDown` | src/input.ts:22-26 | a press of a key not held adds it and calls `onkeydown` once, if set; a press of a held key changes nothing and calls nothing |
| `Keyboard.Input.KeyUp` | src/input.ts:29-33 | a release of a held key removes it and calls `onkeyup` once, if set; a release of a key not held changes nothing and calls nothing |
| `Keyboard.Input.IsDown` | src/input.ts:36-38 | a key is reported down exactly when it is in the held set |
| `Keyboard.Input.SetOnKeyDown` | src/input.ts:44-46 | the `onkeydown` slot takes the new callback; the held keys and the other slot are unchanged |
| `Keyboard.Input.SetOnKeyUp` | src/input.ts:52-54 | the `onkeyup` slot takes the new callback; the held keys and the other slot are unchanged |

## Left out

- The game engine (state machine, collision, rotation, line clearing, scoring, bag randomizer): it does not exist in the code; `GameLogic.start` (src/gamelogic.ts:41-76) only paints demonstration cells, and the key handlers only log.
- `Game.start` (locating the containers, wiring the components) and the bootstrap in src/index.ts: DOM plumbing only.
- DOM element creation, ids, class names and CSS grid placement in `gpCreator` and `sdCreator`; the `id`, `parent` and `element` getters. Random default ids (`Math.random`).
- The `options` getters (src/gridpainter.ts:117-119, src/scoredisplay.ts:109-111) hand out the stored options object itself, so a caller can change `cols`, `rows`, `initialColor`, `value` or `format` behind the component's back. The model keeps `cols`, `rows` and `initialColor` as constants and changes `value` and `format` only through the setters, which repaint. So it does not model a paint after such a change (the bounds checks of `paintCell` read `cols` and `rows` through the getters at src/gridpainter.ts:85-95, and the background colour at src/gridpainter.ts:136, so they see the changed values while the matrix keeps its size), nor a stored score or format that differs from what the element shows because no repaint followed.
- `window.addEventListener` registration; the listeners' bodies are `KeyDown` and `KeyUp`. What a callback does when called is not modelled; the methods return the call.
- src/colors.ts (colour strings built with `toFixed`) is not part of this model; a piece's colour is kept as the `rgb` arguments, and grid colours are opaque strings.
- CSS parsing: a browser ignores an invalid colour string assigned to a cell's style; the model stores the string as given.
- Non-integer and non-finite JavaScript numbers as levels, coordinates, dimensions or score values.
- `Object.assign` copying an option that is present but explicitly `undefined`: the model treats such an option as missing.
- `Text.DecimalString`: gives plain decimal digits for every integer; JavaScript writes numbers of magnitude 10^21 or more in exponent notation, and integers above 2^53 are not exact.
- `Keyboard.Input.constructor`: a slot holding a truthy value that is not a function (which would throw when called) is not modelled; `None` stands for null, undefined or an absent option.
