/** The editor session object: its three fields are updated in place by the
    event handlers, and every terminal operation it performs is returned as
    the command list it queues. The terminal size is a parameter wherever
    the session queries it. */
module Editor {
  import opened Geometry
  import opened Terminal
  import opened Events
  import opened Cursor
  import opened Screen
  import opened Session

  class Editor {
    var shouldQuit: bool
    var shouldClearScreen: bool
    var cursorPos: Point

    /** The session state held in the fields. */
    function View(): EditorState
      reads this
    {
      EditorState(shouldQuit, shouldClearScreen, cursorPos)
    }

    /** A new session: not quitting, a full clear pending, cursor home. */
    constructor Default()
      ensures !shouldQuit && shouldClearScreen && cursorPos == Origin
      ensures View() == Initial
    {
      shouldQuit := false;
      shouldClearScreen := true;
      cursorPos := Point(0, 0);
    }

    /** Runs the one-shot clear: the whole screen is cleared if and only if
        the flag was armed, and the flag is down afterwards. */
    method ClearScreen() returns (cmds: seq<Command>)
      modifies this
      ensures View() == Cleared(old(View()))
      ensures !shouldClearScreen
      ensures cmds == ClearCommands(old(shouldClearScreen))
      ensures Clear(All) in cmds <==> old(shouldClearScreen)
    {
      cmds := [Hide];
      if shouldClearScreen {
        shouldClearScreen := false;
        cmds := cmds + [Clear(All)];
      }
      cmds := cmds + [Show, Flush];
    }

    /** Records `point` as the cursor position and moves the terminal's
        cursor there. */
    method MoveCursorTo(point: Point) returns (cmds: seq<Command>)
      modifies this
      ensures View() == old(View()).(cursorPos := point)
      ensures cmds == [MoveTo(point)]
    {
      cursorPos := point;
      cmds := [MoveTo(point)];
    }

    /** Draws the filler rows: one "~" at the start of every row, top to
        bottom, with a line break after every row but the last. */
    static method DrawRows(size: Size) returns (cmds: seq<Command>)
      ensures cmds == Rows(size.height, size.height)
      ensures Prints(cmds, "~") == FirstColumn(size.height)
      ensures size.height >= 1 ==> |Prints(cmds, "\r\n")| == size.height - 1
    {
      var height := size.height;
      cmds := [];
      for currentRow := 0 to height
        invariant cmds == Rows(currentRow, height)
      {
        cmds := cmds + [Clear(CurrentLine)];
        cmds := cmds + [PrintAt(Point(0, currentRow), "~")];
        if currentRow + 1 < height {
          cmds := cmds + [PrintAt(Point(0, currentRow), "\r\n")];
        }
      }
      if height >= 1 {
        DrawnScreen(height);
      }
    }

    /** Prints the banner centred on the middle row, with its padding
        clamped to zero when the banner is wider than the terminal. */
    static method PrintWelcome(size: Size, banner: string) returns (cmds: seq<Command>)
      requires |banner| <= USIZE_MAX
      ensures cmds == WelcomeCommands(size, banner)
    {
      var len := |banner|;
      var padding := WelcomePadding(size.width, size.height, len);
      cmds := [PrintAt(Point(0, padding.y), Spaces(padding.x))];
      cmds := cmds + [PrintAt(padding, banner)];
      cmds := cmds + [Flush];
    }

    /** The full redraw: filler rows and banner, then the cursor goes home. */
    method RefreshScreen(size: Size, banner: string) returns (cmds: seq<Command>)
      requires |banner| <= USIZE_MAX
      modifies this
      ensures View() == old(View()).(cursorPos := Origin)
      ensures cmds == RefreshCommands(size, banner)
    {
      cmds := [Hide];
      var rows := DrawRows(size);
      var welcome := PrintWelcome(size, banner);
      var home := MoveCursorTo(Point(0, 0));
      cmds := cmds + rows + welcome + home + [Show, Flush];
    }

    /** Applies one key event: only a Press acts, through Escape, backtick
        or a navigation key. */
    method EvaluateEvent(event: KeyEvent, size: Size) returns (cmds: seq<Command>)
      modifies this
      ensures View() == Evaluate(old(View()), event, size)
      ensures cmds == EvaluateCommands(old(View()), event, size)
    {
      cmds := [];
      if event.kind == Press {
        match event.code {
          case Esc =>
            shouldQuit := true;
          case Char(c) =>
            if c == '`' {
              shouldClearScreen := true;
            }
          case Up =>
            cmds := MoveCursorEvent(event.code, size);
          case Down =>
            cmds := MoveCursorEvent(event.code, size);
          case Left =>
            cmds := MoveCursorEvent(event.code, size);
          case Right =>
            cmds := MoveCursorEvent(event.code, size);
          case PageDown =>
            cmds := MoveCursorEvent(event.code, size);
          case PageUp =>
            cmds := MoveCursorEvent(event.code, size);
          case End =>
            cmds := MoveCursorEvent(event.code, size);
          case Home =>
            cmds := MoveCursorEvent(event.code, size);
          case _ =>
        }
      }
      cmds := cmds + [Flush];
    }

    /** Moves the cursor for a navigation key with saturating arithmetic on
        `usize`, clamped to the last row and column of the terminal. */
    method MoveCursorEvent(code: KeyCode, size: Size) returns (cmds: seq<Command>)
      modifies this
      ensures View() == old(View()).(cursorPos := Moved(code, old(cursorPos), size))
      ensures cmds == [MoveTo(cursorPos)]
    {
      var x, y := cursorPos.x, cursorPos.y;
      var height, width := size.height, size.width;
      match code {
        case Up =>
          y := SaturatingSub(y, 1);
        case Down =>
          y := Min(SaturatingSub(height, 1), SaturatingAdd(y, 1));
        case Left =>
          x := SaturatingSub(x, 1);
        case Right =>
          x := Min(SaturatingSub(width, 1), SaturatingAdd(x, 1));
        case PageUp =>
          y := 0;
        case PageDown =>
          y := SaturatingSub(height, 1);
        case Home =>
          x := 0;
        case End =>
          x := SaturatingSub(width, 1);
        case _ =>
      }
      cursorPos := Point(x, y);
      cmds := MoveCursorTo(cursorPos);
    }

    /** The read-evaluate-print loop. Clears and redraws once, then reads
        the events of `inputs` one at a time: a non-key event ends the loop
        with the invalid-key error, a key event is evaluated and followed by
        the one-shot clear, and the loop ends once the quit flag is up. When
        the input runs out the loop would block on the next read; the model
        then stops with `AwaitingInput`. */
    method Repl(size0: Size, banner: string, inputs: seq<Input>)
      returns (outcome: Outcome, consumed: nat, cmds: seq<Command>)
      requires |banner| <= USIZE_MAX
      modifies this
      ensures SessionRun(old(View()), size0, banner, inputs) == Run(View(), outcome, consumed, cmds)
    {
      ghost var run := SessionRun(View(), size0, banner, inputs);
      var cleared := ClearScreen();
      var refreshed := RefreshScreen(size0, banner);
      cmds := cleared + refreshed;
      assert inputs[0..] == inputs;
      var i := 0;
      while i < |inputs|
        invariant 0 <= i <= |inputs|
        invariant run == After(i, cmds, Loop(View(), inputs[i..]))
      {
        LoopAdvances(View(), inputs, i, cmds);
        var parsed := ParseKeyEvent(inputs[i].event);
        if parsed.Err? {
          outcome, consumed := Failed(parsed.error), i + 1;
          return;
        }
        var evaluated := EvaluateEvent(parsed.value, inputs[i].size);
        var clearedAgain := ClearScreen();
        cmds := cmds + (evaluated + clearedAgain);
        i := i + 1;
        if shouldQuit {
          outcome, consumed := Quit, i;
          return;
        }
      }
      assert inputs[i..] == [] && cmds + [] == cmds;
      outcome, consumed := AwaitingInput, i;
    }

  }
}
