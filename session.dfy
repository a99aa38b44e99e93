/** The editor session as a state machine over values: how one key event
    changes the session, and what the read-evaluate-clear loop does with a
    sequence of input events. */
module Session {
  import opened Geometry
  import opened Terminal
  import opened Events
  import opened Cursor
  import opened Screen

  /** The session's three pieces of state. */
  datatype EditorState = EditorState(shouldQuit: bool, shouldClearScreen: bool, cursorPos: Point)

  /** A new session: running, with a full clear pending and the cursor home. */
  const Initial: EditorState := EditorState(false, true, Origin)

  /** One event read from the terminal, with the size a size query returns
      while the event is handled. */
  datatype Input = Input(event: Event, size: Size)

  predicate IsPress(ev: KeyEvent)
  {
    ev.kind == Press
  }

  predicate IsEscapePress(ev: KeyEvent)
  {
    IsPress(ev) && ev.code == Esc
  }

  predicate IsBacktickPress(ev: KeyEvent)
  {
    IsPress(ev) && ev.code == Char('`')
  }

  predicate IsNavigationPress(ev: KeyEvent)
  {
    IsPress(ev) && IsNavigation(ev.code)
  }

  /** The session after key event `ev` on a terminal of size `s`. Only a
      Press does anything: Escape raises the quit flag, a backtick re-arms
      the clear, a navigation key moves the cursor. Neither flag is ever
      lowered here, and modifiers play no part. */
  function Evaluate(st: EditorState, ev: KeyEvent, s: Size): (r: EditorState)
    ensures r.shouldQuit == (st.shouldQuit || IsEscapePress(ev))
    ensures r.shouldClearScreen == (st.shouldClearScreen || IsBacktickPress(ev))
    ensures r.cursorPos == if IsNavigationPress(ev) then Moved(ev.code, st.cursorPos, s) else st.cursorPos
  {
    if ev.kind != Press then st
    else match ev.code
      case Esc => st.(shouldQuit := true)
      case Char(c) => if c == '`' then st.(shouldClearScreen := true) else st
      case _ => if IsNavigation(ev.code) then st.(cursorPos := Moved(ev.code, st.cursorPos, s)) else st
  }

  /** Held modifier keys make no difference to what a key does. */
  lemma ModifiersIgnored(st: EditorState, ev: KeyEvent, m: set<KeyModifier>, s: Size)
    ensures Evaluate(st, ev.(modifiers := m), s) == Evaluate(st, ev, s)
  {
  }

  /** Escape changes the quit flag and nothing else. */
  lemma EscapeOnlyQuits(st: EditorState, ev: KeyEvent, s: Size)
    requires IsEscapePress(ev)
    ensures Evaluate(st, ev, s) == st.(shouldQuit := true)
  {
  }

  /** A backtick changes the clear flag and nothing else. */
  lemma BacktickOnlyArmsClear(st: EditorState, ev: KeyEvent, s: Size)
    requires IsBacktickPress(ev)
    ensures Evaluate(st, ev, s) == st.(shouldClearScreen := true)
  {
  }

  /** A navigation key changes the cursor and nothing else. */
  lemma NavigationOnlyMoves(st: EditorState, ev: KeyEvent, s: Size)
    requires IsNavigationPress(ev)
    ensures Evaluate(st, ev, s) == st.(cursorPos := Moved(ev.code, st.cursorPos, s))
  {
  }

  /** Every other key, and every Repeat or Release, changes nothing. */
  lemma OtherEventsChangeNothing(st: EditorState, ev: KeyEvent, s: Size)
    requires !IsEscapePress(ev) && !IsBacktickPress(ev) && !IsNavigationPress(ev)
    ensures Evaluate(st, ev, s) == st
  {
  }

  /** What evaluating `ev` sends to the terminal: a cursor move for a
      navigation key, then a flush. */
  function EvaluateCommands(st: EditorState, ev: KeyEvent, s: Size): (cmds: seq<Command>)
    ensures |cmds| >= 1 && cmds[|cmds| - 1] == Flush
    ensures IsNavigationPress(ev) <==> |cmds| == 2
    ensures |cmds| == 2 ==> cmds[0] == MoveTo(Evaluate(st, ev, s).cursorPos)
  {
    (if IsNavigationPress(ev) then [MoveTo(Moved(ev.code, st.cursorPos, s))] else []) + [Flush]
  }

  /** Consuming the clear flag. */
  function Cleared(st: EditorState): EditorState
  {
    st.(shouldClearScreen := false)
  }

  /** One loop iteration after the event has passed the key-event gate:
      evaluate it, then run the one-shot clear. */
  function Step(st: EditorState, ev: KeyEvent, s: Size): (EditorState, seq<Command>)
  {
    var st1 := Evaluate(st, ev, s);
    (Cleared(st1), EvaluateCommands(st, ev, s) + ClearCommands(st1.shouldClearScreen))
  }

  /** Across one pass of the loop the full clear is issued exactly when a
      clear was pending or the event was a backtick press, and no clear is
      pending afterwards. */
  lemma StepClearsOnce(st: EditorState, ev: KeyEvent, s: Size)
    ensures !Step(st, ev, s).0.shouldClearScreen
    ensures Clear(All) in Step(st, ev, s).1 <==> st.shouldClearScreen || IsBacktickPress(ev)
  {
    var evaluated := EvaluateCommands(st, ev, s);
    var cleared := ClearCommands(Evaluate(st, ev, s).shouldClearScreen);
    assert Clear(All) !in evaluated;
    assert Clear(All) in evaluated + cleared <==> Clear(All) in cleared;
  }

  /** How the loop ended: Escape was pressed, an event was rejected, or the
      input ran out while the loop waited for more. */
  datatype Outcome = Quit | Failed(error: Error) | AwaitingInput

  /** A run of the loop: the final session, how it ended, how many events it
      read, and what it sent to the terminal. */
  datatype Run = Run(state: EditorState, outcome: Outcome, consumed: nat, output: seq<Command>)

  /** The read-evaluate-clear loop over `inputs`. Each event is read, the
      key-event gate applied, the event evaluated, the clear run, and the
      loop left once the quit flag is up. */
  function Loop(st: EditorState, inputs: seq<Input>): (r: Run)
    ensures r.consumed <= |inputs|
    ensures r.outcome == AwaitingInput ==> r.consumed == |inputs|
    ensures r.outcome != AwaitingInput ==> r.consumed >= 1
    decreases |inputs|
  {
    if inputs == [] then Run(st, AwaitingInput, 0, [])
    else match ParseKeyEvent(inputs[0].event)
      case Err(e) => Run(st, Failed(e), 1, [])
      case Ok(ev) =>
        var (st1, out) := Step(st, ev, inputs[0].size);
        if st1.shouldQuit then Run(st1, Quit, 1, out)
        else
          var rest := Loop(st1, inputs[1..]);
          Run(rest.state, rest.outcome, rest.consumed + 1, out + rest.output)
  }

  /** One unfolding of the loop on a non-empty input. */
  lemma LoopUnfolds(st: EditorState, inputs: seq<Input>)
    requires inputs != []
    ensures !inputs[0].event.Key? ==> Loop(st, inputs) == Run(st, Failed(InvalidKeyEvent), 1, [])
    ensures inputs[0].event.Key? ==>
              var (st1, out) := Step(st, inputs[0].event.key, inputs[0].size);
              var rest := Loop(st1, inputs[1..]);
              Loop(st, inputs) == if st1.shouldQuit then Run(st1, Quit, 1, out)
                                  else Run(rest.state, rest.outcome, rest.consumed + 1, out + rest.output)
  {
  }

  /** A run that follows `n` events already read, which sent `out`. */
  function After(n: nat, out: seq<Command>, r: Run): Run
  {
    Run(r.state, r.outcome, r.consumed + n, out + r.output)
  }

  /** The loop from event `i` on, one event further: a non-key event ends
      it with the invalid-key error; a key event is handled and either ends
      it with Quit or leaves the rest of the loop to run. */
  lemma LoopAdvances(st: EditorState, inputs: seq<Input>, i: nat, out: seq<Command>)
    requires i < |inputs|
    ensures !inputs[i].event.Key? ==>
              After(i, out, Loop(st, inputs[i..])) == Run(st, Failed(InvalidKeyEvent), i + 1, out)
    ensures inputs[i].event.Key? ==>
              var (st1, cmds) := Step(st, inputs[i].event.key, inputs[i].size);
              After(i, out, Loop(st, inputs[i..]))
              == if st1.shouldQuit then Run(st1, Quit, i + 1, out + cmds)
                 else After(i + 1, out + cmds, Loop(st1, inputs[i + 1..]))
  {
    LoopUnfolds(st, inputs[i..]);
    assert inputs[i..][1..] == inputs[i + 1..];
    assert out + [] == out;
    if inputs[i].event.Key? {
      var (st1, cmds) := Step(st, inputs[i].event.key, inputs[i].size);
      var rest := Loop(st1, inputs[i + 1..]);
      assert out + (cmds + rest.output) == out + cmds + rest.output;
    }
  }

  /** The whole of a session: the initial clear and redraw on a terminal of
      size `size0`, then the loop. */
  function SessionRun(st: EditorState, size0: Size, banner: string, inputs: seq<Input>): (r: Run)
    requires |banner| <= USIZE_MAX
    ensures r.consumed <= |inputs|
    ensures r.outcome == AwaitingInput ==> r.consumed == |inputs|
    ensures r.outcome == Quit ==> r.state.shouldQuit && !r.state.shouldClearScreen
    ensures |r.output| >= 4 && r.output[0] == Hide
    ensures r.output[1] == Clear(All) <==> st.shouldClearScreen
  {
    var startup := ClearCommands(st.shouldClearScreen) + RefreshCommands(size0, banner);
    var rest := Loop(Cleared(st).(cursorPos := Origin), inputs);
    QuitLeavesScreenCleared(Cleared(st).(cursorPos := Origin), inputs);
    assert (startup + rest.output)[..|startup|] == startup;
    After(0, startup, rest)
  }

  /** A new session begins by clearing the whole screen, before the first
      redraw hides the cursor again. */
  lemma StartupClearsScreen(size0: Size, banner: string, inputs: seq<Input>)
    requires |banner| <= USIZE_MAX
    ensures SessionRun(Initial, size0, banner, inputs).output[..5] == [Hide, Clear(All), Show, Flush, Hide]
  {
    var startup := ClearCommands(true) + RefreshCommands(size0, banner);
    assert startup[..5] == [Hide, Clear(All), Show, Flush, Hide];
    var r := Loop(EditorState(false, false, Origin), inputs);
    assert (startup + r.output)[..5] == startup[..5];
  }

  /** The event at index `i` stops the loop: it is not a key event, or it is
      an Escape press. */
  predicate StopsAt(inputs: seq<Input>, i: nat)
    requires i < |inputs|
  {
    !inputs[i].event.Key? || IsEscapePress(inputs[i].event.key)
  }

  /** The index of the first event that stops the loop, or `|inputs|`. */
  function FirstStop(inputs: seq<Input>): (k: nat)
    ensures k <= |inputs|
    ensures k < |inputs| ==> StopsAt(inputs, k)
    ensures forall i :: 0 <= i < k ==> !StopsAt(inputs, i)
  {
    if inputs == [] then 0
    else if StopsAt(inputs, 0) then 0
    else
      var k := FirstStop(inputs[1..]);
      assert forall i :: 1 <= i < k + 1 ==> StopsAt(inputs, i) == StopsAt(inputs[1..], i - 1);
      k + 1
  }

  /** The loop reads exactly up to the first stopping event and no further:
      it quits right after the first Escape press, fails with the invalid-key
      error at the first non-key event, and otherwise waits for more input
      having read everything. */
  lemma {:induction false} LoopStopsAtFirstStop(st: EditorState, inputs: seq<Input>)
    requires !st.shouldQuit
    decreases |inputs|
    ensures var k := FirstStop(inputs);
            var r := Loop(st, inputs);
            && (k == |inputs| ==> r.outcome == AwaitingInput && r.consumed == |inputs|)
            && (k < |inputs| && !inputs[k].event.Key? ==> r.outcome == Failed(InvalidKeyEvent) && r.consumed == k + 1)
            && (k < |inputs| && inputs[k].event.Key? ==> r.outcome == Quit && r.consumed == k + 1)
  {
    if inputs != [] && !StopsAt(inputs, 0) {
      var ev := inputs[0].event.key;
      var (st1, _) := Step(st, ev, inputs[0].size);
      assert !st1.shouldQuit;
      LoopStopsAtFirstStop(st1, inputs[1..]);
    }
  }

  /** When the loop quits, the quit flag is up and the pending clear has been
      consumed. */
  lemma {:induction false} QuitLeavesScreenCleared(st: EditorState, inputs: seq<Input>)
    ensures Loop(st, inputs).outcome == Quit ==> Loop(st, inputs).state.shouldQuit
    ensures Loop(st, inputs).outcome == Quit ==> !Loop(st, inputs).state.shouldClearScreen
    decreases |inputs|
  {
    if inputs != [] && inputs[0].event.Key? {
      var (st1, _) := Step(st, inputs[0].event.key, inputs[0].size);
      if !st1.shouldQuit {
        QuitLeavesScreenCleared(st1, inputs[1..]);
      }
    }
  }

  /** On a terminal that keeps its size, a cursor that starts on the screen
      stays on it for the whole loop. */
  lemma {:induction false} LoopKeepsCursorInBounds(st: EditorState, inputs: seq<Input>, s: Size)
    requires InBounds(st.cursorPos, s)
    requires forall i :: 0 <= i < |inputs| ==> inputs[i].size == s
    ensures InBounds(Loop(st, inputs).state.cursorPos, s)
    decreases |inputs|
  {
    if inputs != [] && inputs[0].event.Key? {
      var (st1, _) := Step(st, inputs[0].event.key, s);
      if !st1.shouldQuit {
        LoopKeepsCursorInBounds(st1, inputs[1..], s);
      }
    }
  }
}
