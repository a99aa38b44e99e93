# Terminal editor session, modelled in Dafny

The program is the skeleton of a terminal text editor. It puts the terminal in
raw mode and draws a placeholder screen: a `~` at the start of every row and a
welcome banner in the middle. It then reads key events one at a time. Escape
quits, a backtick forces a full clear of the screen, and eight navigation keys
(Up, Down, Left, Right, Home, End, PageUp, PageDown) move a cursor. Each move
is clamped to the terminal's size.

This project models the editor session in `src/editor.rs`:

- **State**: the `Editor` object with its three fields `should_quit`,
  `should_clear_screen` and `cursor_pos`. It is a Dafny class
  (`Editor.Editor`), and its methods update those fields in place. The pure
  value of those fields is `Session.EditorState`.
- **Rules**: how one key event changes the session (`Session.Evaluate`), where
  each navigation key takes the cursor (`Cursor.Moved`), and what the
  read-evaluate-clear loop does with a sequence of events (`Session.Loop`,
  `Session.SessionRun`). Each class method is proved against these functions,
  and the properties are proved about the functions.
- **Terminal driver** (`src/terminal/terminal.rs`): an abstract command sink.
  Every driver call the editor makes (hide or show the cursor, clear, print at
  a cell, move the cursor, flush) becomes one `Terminal.Command`. Each method
  returns the commands it queues, in order.
- **Inputs**: the terminal size is a parameter wherever the source queries it.
  Each input event comes paired with the size that a query returns while the
  event is handled. Blocking reads are replaced by a finite sequence of events.
- **Integers**: `usize` is the subset type `Geometry.Usize` (0 to 2^64 − 1).
  The saturating subtraction and addition of the source are written out.

Files: `geometry.dfy` (`Point`, `Size`, `usize` arithmetic), `terminal.dfy`
(commands), `events.dfy` (input events and the key-event gate), `cursor.dfy`
(movement rules), `screen.dfy` (filler rows, banner, one-shot clear),
`session.dfy` (the state machine and the loop), `editor.dfy` (the class).

Down computes `min(height.saturating_sub(1), y.saturating_add(1))`, so on a
terminal zero rows high the cursor goes to row 0 (`Geometry.LastIndex`), where
`min(y + 1, height − 1)` in signed arithmetic would give −1.

## Model

| member | source | states |
|---|---|---|
| Geometry.LastIndex | src/editor.rs:183 | `n.saturating_sub(1)` is `n − 1` for a non-empty dimension and 0 for an empty one |
| Events.ParseKeyEvent | src/editor.rs:119-128 | an event is accepted if and only if it is a key event, and then it is returned unchanged; every other event gives the "Invalid key event" error |
| Cursor.Moved | src/editor.rs:166-192 | vertical keys keep `x`, horizontal keys keep `y`, any other key keeps the cursor; a cursor on the screen stays on the screen |
| Cursor.MoveAllInBounds | src/editor.rs:162-195 | any sequence of key presses keeps a cursor that starts on the screen on the screen |
| Cursor.SingleSteps | src/editor.rs:167-178 | Up and Left go back exactly one cell, or stay at 0; Down and Right go forward exactly one cell, or stay put on the last row or column |
| Cursor.AbsoluteKeys | src/editor.rs:179-190 | Home, End, PageUp and PageDown give the same result whatever the coordinate they set was, so pressing one twice equals pressing it once |
| Cursor.PressedBack | src/editor.rs:167-175 | `n` presses of Up or Left move back by `n`, stopping at 0 and staying there |
| Cursor.PressedForward | src/editor.rs:170-178 | `n ≥ 1` presses of Down or Right move forward by `n`, stopping at the last row or column and staying there |
| Cursor.Walkthrough | src/editor.rs:162-195 | on an 80×24 terminal: five Rights from (0, 0) give (5, 0), then PageDown (5, 23), Home (0, 23), Up (0, 22) |
| Screen.RowsShape | src/editor.rs:71-81 | drawing `n` rows prints `~` once at column 0 of each row 0..n−1 in order, clears `n` lines, and breaks the line after each row except the screen's last |
| Screen.DrawnScreen | src/editor.rs:71-81 | a screen `height ≥ 1` rows high gets exactly `height` tildes, one per row from the top, and `height − 1` line breaks |
| Screen.WelcomePaddingAsWritten | src/editor.rs:103-106 | the source's `usize` placement: there is none exactly when the banner is longer than the terminal is wide; otherwise the row is `height / 2` and the left margin is half the free space, rounded down |
| Screen.NarrowTerminalOverflows | src/editor.rs:105 | with the source's arithmetic, a 30-character banner on a 10×5 terminal has no placement, because the subtraction overflows |
| Screen.WelcomePadding | src/editor.rs:101-106 | a banner that fits gets the source's placement; it ends on the screen, and its left margin is at most its right margin, which is at most the left margin + 1; a banner that does not fit gets padding 0; the row is the middle one and lies on a non-empty screen |
| Screen.WelcomeCommands | src/editor.rs:101-117 | the banner is printed at the centred cell, preceded by a run of spaces from column 0 exactly as long as the banner's column, then the output is flushed; a banner that fits ends on the screen with its left margin at most its right margin, and the banner row lies on a non-empty screen |
| Screen.ClearCommands | src/editor.rs:56-64 | the whole screen is cleared if and only if the flag is armed; the cursor is hidden first, then shown, then the output is flushed |
| Session.Evaluate | src/editor.rs:130-157 | after one key event: quit is set if and only if it was set or the event is an Escape press; a clear is pending if and only if one was pending or the event is a backtick press; the cursor moves by `Moved` only for a navigation-key press |
| Session.ModifiersIgnored | src/editor.rs:132-137 | which modifier keys are held makes no difference |
| Session.EscapeOnlyQuits | src/editor.rs:138-140 | an Escape press changes `should_quit` to true and nothing else |
| Session.BacktickOnlyArmsClear | src/editor.rs:141-143 | a backtick press changes `should_clear_screen` to true and nothing else |
| Session.NavigationOnlyMoves | src/editor.rs:144-153 | a navigation-key press changes only the cursor |
| Session.OtherEventsChangeNothing | src/editor.rs:154-156 | any other key, and any Repeat or Release event, leaves all three fields unchanged |
| Session.EvaluateCommands | src/editor.rs:130-160 | evaluating a key ends with a flush; a navigation-key press, and nothing else, first moves the terminal cursor to the new position |
| Session.StepClearsOnce | src/editor.rs:90-92 | across one pass of the loop, the full clear is issued if and only if a clear was pending or the key was a backtick press; afterwards no clear is pending |
| Session.Loop | src/editor.rs:87-96 | the loop never reads more events than it was given; it reads them all when it ends waiting for input, and at least one when it ends otherwise |
| Session.SessionRun | src/editor.rs:84-99 | a whole session never reads more events than given and reads them all when it ends waiting for input; when it quits, the quit flag is set and no clear is pending; its output starts by hiding the cursor and then clears the whole screen if and only if a clear was pending |
| Session.StartupClearsScreen | src/editor.rs:84-86 | a new session's first output is a full screen clear, then the redraw begins |
| Session.LoopStopsAtFirstStop | src/editor.rs:84-99 | the loop reads exactly up to the first event that is a non-key event or an Escape press. It quits right after an Escape press and fails with the invalid-key error at a non-key event. If there is no such event, it reads everything and waits for more |
| Session.QuitLeavesScreenCleared | src/editor.rs:92-95 | when the loop quits, the quit flag is set and no clear is pending |
| Session.LoopKeepsCursorInBounds | src/editor.rs:87-96 | on a terminal whose size does not change, a cursor that starts on the screen stays on it for the whole loop |
| Editor.Editor.Default | src/editor.rs:24-30 | a new editor is not quitting, has a full clear pending, and has its cursor at (0, 0) |
| Editor.Editor.ClearScreen | src/editor.rs:56-64 | the flag is down afterwards; the whole screen is cleared if and only if the flag was armed on entry; nothing else changes |
| Editor.Editor.MoveCursorTo | src/editor.rs:66-69 | records the point as the cursor position, changes nothing else, and moves the terminal cursor there |
| Editor.Editor.DrawRows | src/editor.rs:71-81 | the loop over rows emits the filler rows: one `~` at column 0 of every row in order, and `height − 1` line breaks |
| Editor.Editor.PrintWelcome | src/editor.rs:101-117 | emits the padding and the banner at the centred cell, then a flush |
| Editor.Editor.RefreshScreen | src/editor.rs:47-54 | emits the full redraw (rows, banner, cursor home); only the cursor changes, and it goes to (0, 0) |
| Editor.Editor.EvaluateEvent | src/editor.rs:130-160 | the new fields are `Evaluate` of the old ones, and the commands are `EvaluateCommands` |
| Editor.Editor.MoveCursorEvent | src/editor.rs:162-196 | the saturating `usize` arithmetic puts the cursor exactly where the movement table `Moved` says; the flags are unchanged |
| Editor.Editor.Repl | src/editor.rs:84-99 | clear, redraw, then the loop: the final fields, the outcome, the number of events read and the command stream are those of `SessionRun` |

## Findings

| source | as written | input that shows it | evidently intended | confidence | as-written member | corrected member |
|---|---|---|---|---|---|---|
| src/editor.rs:105 | `let x_padding = (width - len) / 2;` on `usize`, where `len` is the banner length | a 10-column terminal and a 30-character banner: `10 - 30` overflows, and the process stops (in a debug build, with "attempt to subtract with overflow"; in a release build, the wrapped padding ≈ 2^63 makes `" ".repeat` abort on a failed allocation) | a banner wider than the terminal gets padding 0 | high; not executed | Screen.NarrowTerminalOverflows | Screen.WelcomePadding |

`Screen.WelcomePaddingAsWritten` is the source's arithmetic. It gives `None` exactly where the subtraction overflows and the process stops. `Screen.WelcomePadding` agrees with it whenever the banner fits. The rest of the model (`WelcomeCommands`, `PrintWelcome`, `RefreshScreen`, `SessionRun`) uses the corrected padding.

## Left out

- `run`, `init` and `exit` (src/editor.rs:32-45) are left out. They acquire and release raw mode and order the `unwrap` panics: this is terminal resource handling with no session state.
- I/O errors are not modelled. Every terminal operation and every size query is taken to succeed, so the `?` error paths of `clear_screen`, `refresh_screen`, `draw_rows`, `print_welcome`, `evaluate_event` and `move_cursor_event` do not appear. The only error modelled is the rejected non-key event.
- `read()` is not modelled: it blocks on the terminal. The loop consumes a finite sequence of events instead. When the sequence runs out, the model stops with `AwaitingInput` where the program would wait.
- The `as u16` casts in `Terminal::print` and `Terminal::move_cursor_to` are not modelled. Commands carry the full `usize` point.
- Output buffering is reduced to a `Flush` command in the stream. Nothing about what becomes visible on the terminal is modelled.
- The banner text, built from compile-time package metadata, is a string parameter. Its length is counted in characters, whereas `message.len()` counts UTF-8 bytes. The two agree for ASCII metadata.
- Editor.Editor.RefreshScreen: `draw_rows` and `print_welcome` each query the terminal size. The model uses one size for the whole redraw, so a resize between those two queries is not captured.
- Key events keep their code, modifiers and kind. The `state` field, ignored by the source's `..` pattern, is dropped. Mouse events are reduced to their cell.
- `Size::default` and `Point::default` (src/types) are not modelled: they are unused, and `Size::default` only queries the terminal.
