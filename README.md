# kurzhozen: a verified model of the viewer core

kurzhozen is a terminal pager. It reads its whole input line by line into a buffer. It shows the
newest lines at the bottom of the terminal. The user then presses `/` and types a pattern, which
is highlighted in the lines on screen. A footer shows the pattern on the left and the mode on the
right. This project models the `App` type of `src/app.rs` and proves properties of it. That
covers the key state machine, the footer layout, the placement of lines on rows during a redraw,
and the ingestion of lines.

Modules:

- `Keys`: the two modes and their display names, the decoded keys, and the transition of one key
  (`Step`). Also the key loop over a finite sequence of keys (`Run`) and the lemmas about both.
- `StatusLine`: the `usize` arithmetic of the footer padding, including the condition under which
  it panics.
- `Viewport`: the walk of the buffer from newest to oldest. It gives each line its row, using the
  `u16` arithmetic of the source. Also the corrected walk (see Findings) and how the two relate.
- `LineBuffer`: which `read_line` results end up in the buffer.
- `Kurzhozen`: the class `App`, with fields `rawBuffer`, `query` and `mode`. Its methods change
  those fields in place, or read them, and are proved against the functions above.
- `Wrappers`: `Option` and `Result`.

Where the code's behaviour differs from what a user of the viewer would expect, the model follows
the code:

- The footer does not clamp or truncate on a narrow terminal. The subtraction at `src/app.rs:114` panics when
  `width < |query| + 6 + 1`. `App.Footer` therefore requires a wide enough terminal, and
  `StatusLine.PaddingWidth` gives the exact condition for the panic.
- The footer is `width - 1` characters wide, not as wide as the terminal.
- An empty query builds the regular expression `(.*)(?P<m>)(.*)`, and that expression matches
  every line, where one would expect no highlight at all. Matching is abstract here, so this is recorded but not modelled.
- `/` in Normal mode changes the mode without a redraw. The footer keeps showing `Normal` until
  the next key that redraws.
- The cut-off at the terminal height applies only to lines that match the query. See Findings.

Rust's integer overflow is modelled with debug-build semantics: an overflowing subtraction
panics. A release build would wrap around instead.

## Model

| member | source | states |
|---|---|---|
| `Keys.ModeName` | src/app.rs:21-25 | a mode is displayed as its six-letter variant name, `Normal` or `Search` |
| `Keys.ModeNameInjective` | src/app.rs:15-25 | the two modes have different names, so the footer always tells them apart |
| `Keys.Step` | src/app.rs:60-91 | one key: exits exactly on Ctrl-C, and then leaves mode and query unchanged with no redraw; keeps the invariant that Normal mode has an empty query; leaving Search always empties the query; the query changes only by one push, one pop or a reset; only `/` and Esc change the mode; only Search-mode keys redraw |
| `Keys.RunProperties` | src/app.rs:54-100 | the key loop returns success exactly at the first Ctrl-C and otherwise ends with the input error after the last key; from a consistent state, every redrawn state and the final state are consistent |
| `Keys.TypingExtendsQuery` | src/app.rs:78-81 | in Search mode, typing any text without a newline appends exactly that text to the query, with one redraw per character |
| `Keys.BackspaceUndoesChar` | src/app.rs:73-81 | in Search mode Backspace undoes the character just typed |
| `Keys.BackspaceOnEmpty` | src/app.rs:73-76 | Backspace on an empty query in Search mode changes nothing, does not fail, and still redraws |
| `Keys.EscapeResets` | src/app.rs:84-88 | Esc in Search mode returns to Normal with an empty query whatever the query held, and redraws |
| `Keys.SlashEntersSearch` | src/app.rs:67-81 | `/` in Normal enters Search, keeps the query and does not redraw; `/` in Search is pushed like any other character, with a redraw |
| `Keys.EnterIgnoredInSearch` | src/app.rs:71-72 | Enter in Search mode neither edits the query nor redraws |
| `Keys.NormalIgnoresOtherKeys` | src/app.rs:90 | in Normal mode every key except Ctrl-C and `/` is a no-op |
| `StatusLine.PaddingWidth` | src/app.rs:114 | the left-to-right `usize` subtraction panics exactly when `width < query_len + mode_len + 1`; otherwise query, padding, mode name and the spare column add up to `width` |
| `StatusLine.TightFooterFits` | src/app.rs:114-119 | query `err` in Normal mode on 20 columns gets 10 spaces, and `err`, the spaces and `Normal` make a 19-character footer |
| `StatusLine.NarrowFooterPanics` | src/app.rs:114 | a 10-character query on 5 columns makes the padding subtraction panic |
| `LineBuffer.LinesRead` | src/app.rs:133-145 | the buffer receives the reads before the first zero-byte read, in arrival order; each of them is non-empty |
| `LineBuffer.LinesReadMonotone` | src/app.rs:143 | reading more input only extends what was appended, never changes it |
| `Viewport.Row` | src/app.rs:185 | inside the terminal (rank at most `height`) the cast never truncates and the row is `height - rank`; the first ranks past `height` (up to 2^16) always make the `u16` subtraction panic; beyond that the cast wraps the rank modulo 2^16 |
| `Viewport.LayoutByRank` | src/app.rs:161-189 | every placement writes the line of reverse rank `k` at row `height - k`, newest first; a matching line is placed only when `k < height`; the walk stops only when the buffer runs out, at the `break` of a matching line at rank `>= height`, or at a row underflow of a non-matching line |
| `Viewport.NewestAtBottom` | src/app.rs:161-171 | the newest line is placed at the bottom row `height`, unless it matches and the terminal has no rows |
| `Viewport.UnmatchedLinesUnderflow` | src/app.rs:182-188 | as written: when no line matches and the buffer has more than `height + 1` lines, `height + 1` lines are placed, the last of them at row 0, and the row computation for rank `height + 1` panics |
| `Viewport.OneRowThreeLinesPanics` | src/app.rs:161-188 | as written: one row and three unmatched lines place two lines, at rows 1 and 0, and then panic at rank 2 |
| `Viewport.IntendedLayoutFits` | src/app.rs:161-165 | with the cut-off applied to every line, exactly the newest `min(height, buffer length)` lines are placed, newest at row `height`, each at a row from 1 to `height` |
| `Viewport.LayoutAgreesIff` | src/app.rs:161-188 | the walk as written gives the intended body if and only if the buffer fits the terminal or the first line past the cut-off matches |
| `Kurzhozen.App.constructor` | src/app.rs:42-51 | a new `App` is in Normal mode with an empty query and an empty buffer, which satisfies the invariant |
| `Kurzhozen.App.HandleKey` | src/app.rs:60-91 | updates `mode` and `query` in place exactly as `Step` says and reports its exit and redraw outcomes; the buffer is untouched and the invariant is preserved |
| `Kurzhozen.App.IterateOverKeys` | src/app.rs:54-100 | the in-place loop ends in the state, ending, key count and redraw sequence that `Run` gives; it preserves the invariant |
| `Kurzhozen.App.Footer` | src/app.rs:107-122 | the footer is `width - 1` characters wide: it is the query, then width minus query length minus 7 spaces, then the mode name |
| `Kurzhozen.App.Layout` | src/app.rs:161-189 | the placement loop computes the walk `Viewport.Layout`, so every property of `LayoutByRank` holds of its result |
| `Kurzhozen.App.Redraw` | src/app.rs:148-204 | a redraw panics on the body's row underflow, or else on the footer underflow exactly when the terminal is too narrow; otherwise it succeeds: it draws the body as `Viewport.Layout` gives it, then at row `height` (over the newest line's row) the footer made of the query, the padding spaces and the mode name |
| `Kurzhozen.App.ReadInput` | src/app.rs:132-146 | ingestion only appends `LinesRead` to the buffer, so the old buffer is a prefix of the new one; mode and query are untouched |
| `Kurzhozen.App.Start` | src/app.rs:124-130 | ingest all input, then run the key loop; the buffer gains `LinesRead`, the final mode and query and the ending are the ones `Run` gives, and the invariant is kept |

## Left out

- Building the regular expression from the query (src/app.rs:153-159) and matching with it. `matches` is an arbitrary predicate instead. The `unwrap` panic on an invalid pattern is therefore not modelled.
- Splitting a matching line into captures and colouring the match (src/app.rs:167-178). Each line counts as one placement at its row, because every capture of a line is written at that same row.
- Terminal I/O: `terminal_size`, clearing the screen, `Goto`, colour and inverse style, `write!` and `flush`, and their errors. Width and height are parameters; the output is the list of rows, lines and the footer.
- The key channel (`select!`, `recv`). The keys are a finite sequence, and running out of keys stands for the failed receive that returns `InputError`.
- `read_line` and its `expect`. The reads are a given sequence of strings, where the empty string is the zero-byte read at end of input. If the sequence ends without one, that also counts as end of input.
- Kurzhozen.App.ReadInput: does not model the redraw after each appended line (src/app.rs:144), because that needs the terminal size at that moment. A panic or output error in that redraw, which would end ingestion early, is therefore not captured.
- Kurzhozen.App.IterateOverKeys: records the state each `redraw` would draw instead of drawing it, because the geometry at each redraw is I/O. The model does not capture a redraw that panics or fails and so ends the loop.
- The `error` module and its `Result` alias: error plumbing whose source is not part of this model.
- Release-build wrap-around of `u16` and `usize` subtraction. The model panics, as a debug build does.

## Findings

| source | as written | input that shows it | evidently intended | confidence | as-written member | corrected member |
|---|---|---|---|---|---|---|
| src/app.rs:161-188 | the `i >= height` cut-off applies only to matching lines; a non-matching line is always placed at `height - i as u16` | height 1, buffer `a`, `b`, `c` and a query that matches none of them: `c` goes to row 1, `b` goes to row 0, and the row of `a` underflows, which panics | every line past the cut-off is skipped, so a redraw shows at most `height` lines at rows 1 to `height` and never underflows | high; not executed | `Viewport.UnmatchedLinesUnderflow` | `Viewport.IntendedLayoutFits` |

`App.Layout` keeps the walk as written, so that the model stays faithful to the source.
`Viewport.LayoutAgreesIff` gives the exact condition under which it agrees with the corrected
walk `Viewport.IntendedLayout`.
