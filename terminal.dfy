/** The terminal driver as an abstract command sink: each operation the
    editor asks of the driver is recorded as one command, in order. */
module Terminal {
  import opened Geometry

  /** The two clear scopes the editor uses. */
  datatype ClearType = All | CurrentLine

  datatype Command =
    | Hide                                // hide the cursor
    | Show                                // show the cursor
    | Clear(target: ClearType)            // clear the whole screen or the current line
    | PrintAt(at: Point, text: string)    // move to `at`, then write `text` there
    | MoveTo(to: Point)                   // move the cursor without writing
    | Flush                               // flush the queued commands to the terminal

  /** The positions at which `text` is printed, in order. */
  function Prints(cmds: seq<Command>, text: string): seq<Point>
  {
    if cmds == [] then []
    else (if cmds[0].PrintAt? && cmds[0].text == text then [cmds[0].at] else [])
         + Prints(cmds[1..], text)
  }

  /** How many times `c` occurs in `cmds`. */
  function Count(cmds: seq<Command>, c: Command): nat
  {
    if cmds == [] then 0
    else (if cmds[0] == c then 1 else 0) + Count(cmds[1..], c)
  }

  lemma {:induction false} PrintsAppend(a: seq<Command>, b: seq<Command>, text: string)
    ensures Prints(a + b, text) == Prints(a, text) + Prints(b, text)
  {
    if a == [] {
      assert a + b == b;
    } else {
      assert (a + b)[1..] == a[1..] + b;
      PrintsAppend(a[1..], b, text);
    }
  }

  lemma {:induction false} CountAppend(a: seq<Command>, b: seq<Command>, c: Command)
    ensures Count(a + b, c) == Count(a, c) + Count(b, c)
  {
    if a == [] {
      assert a + b == b;
    } else {
      assert (a + b)[1..] == a[1..] + b;
      CountAppend(a[1..], b, c);
    }
  }
}
