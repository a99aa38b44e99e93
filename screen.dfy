/** What the editor writes to the terminal when it renders: the filler rows,
    the centred welcome banner, and the one-shot full clear. */
module Screen {
  import opened Geometry
  import opened Terminal
  import opened Events

  /** The commands for filler row `row` of a screen `height` rows high: clear
      the line, print "~" at its start, and break the line unless it is the
      last row. */
  function RowCommands(row: Usize, height: Usize): seq<Command>
  {
    [Clear(CurrentLine), PrintAt(Point(0, row), "~")]
    + (if row + 1 < height then [PrintAt(Point(0, row), "\r\n")] else [])
  }

  /** The commands for filler rows `0 .. n - 1`. */
  function Rows(n: Usize, height: Usize): seq<Command>
    requires n <= height
  {
    if n == 0 then [] else Rows(n - 1, height) + RowCommands(n - 1, height)
  }

  /** The first cells of rows `0 .. n - 1`, top to bottom. */
  function FirstColumn(n: Usize): seq<Point>
  {
    if n == 0 then [] else FirstColumn(n - 1) + [Point(0, n - 1)]
  }

  lemma {:induction false} FirstColumnAt(n: Usize, i: nat)
    requires i < n
    ensures |FirstColumn(n)| == n && FirstColumn(n)[i] == Point(0, i)
  {
    if i < n - 1 {
      FirstColumnAt(n - 1, i);
    } else if n > 1 {
      FirstColumnAt(n - 1, 0);
    }
  }

  lemma RowCommandsShape(row: Usize, height: Usize)
    ensures Prints(RowCommands(row, height), "~") == [Point(0, row)]
    ensures Prints(RowCommands(row, height), "\r\n") == if row + 1 < height then [Point(0, row)] else []
    ensures Count(RowCommands(row, height), Clear(CurrentLine)) == 1
  {
    var cmds := RowCommands(row, height);
    var tail := if row + 1 < height then [PrintAt(Point(0, row), "\r\n")] else [];
    assert "~" != "\r\n";
    assert cmds[1..] == [PrintAt(Point(0, row), "~")] + tail;
    assert cmds[1..][1..] == tail;
    if tail != [] {
      assert tail[1..] == [];
    }
    assert Prints(tail, "~") == [];
    assert Prints(tail, "\r\n") == if row + 1 < height then [Point(0, row)] else [];
    assert Count(tail, Clear(CurrentLine)) == 0;
  }

  /** Drawing `n` filler rows prints "~" once at the start of each row in
      order, breaks the line after each row but the last of the screen, and
      clears `n` lines. */
  lemma {:induction false} RowsShape(n: Usize, height: Usize)
    requires 1 <= n <= height
    ensures Prints(Rows(n, height), "~") == FirstColumn(n)
    ensures Prints(Rows(n, height), "\r\n") == FirstColumn(if n == height then n - 1 else n)
    ensures Count(Rows(n, height), Clear(CurrentLine)) == n
  {
    var last := RowCommands(n - 1, height);
    PrintsAppend(Rows(n - 1, height), last, "~");
    PrintsAppend(Rows(n - 1, height), last, "\r\n");
    CountAppend(Rows(n - 1, height), last, Clear(CurrentLine));
    RowCommandsShape(n - 1, height);
    if n > 1 {
      RowsShape(n - 1, height);
    }
  }

  /** A screen `height` rows high gets exactly `height` tildes, one per row
      from the top, and `height - 1` line breaks. */
  lemma DrawnScreen(height: Usize)
    requires height >= 1
    ensures Prints(Rows(height, height), "~") == FirstColumn(height)
    ensures |Prints(Rows(height, height), "~")| == height
    ensures |Prints(Rows(height, height), "\r\n")| == height - 1
  {
    RowsShape(height, height);
    if height > 1 {
      FirstColumnAt(height, 0);
      FirstColumnAt(height - 1, 0);
    }
  }

  /** A run of `n` spaces. */
  function Spaces(n: nat): (r: string)
    ensures |r| == n && forall i :: 0 <= i < n ==> r[i] == ' '
  {
    if n == 0 then "" else Spaces(n - 1) + " "
  }

  /** Where the banner goes as the source computes it, `(width - len) / 2`
      and `height / 2` in `usize`: `None` when the subtraction overflows,
      which stops the process. A placement, when there is one, leaves the
      banner centred on the middle row. */
  function WelcomePaddingAsWritten(width: Usize, height: Usize, len: Usize): (r: Option<Point>)
    ensures r.None? <==> len > width
    ensures r.Some? ==> r.value.y == height / 2
    ensures r.Some? ==> 2 * r.value.x <= width - len <= 2 * r.value.x + 1
  {
    if len <= width then Some(Point((width - len) / 2, height / 2)) else None
  }

  /** A banner wider than the terminal makes the source's padding overflow:
      on a 10x5 terminal with a 30-character banner there is no placement. */
  lemma NarrowTerminalOverflows()
    ensures WelcomePaddingAsWritten(10, 5, 30) == None
  {
  }

  /** Where the banner goes, with the horizontal padding clamped to 0 when
      the banner does not fit. A banner that fits is centred: its left
      margin is half the free space, rounded down, and it ends on the
      screen; the row is the middle one. */
  function WelcomePadding(width: Usize, height: Usize, len: Usize): (p: Point)
    ensures len <= width ==> WelcomePaddingAsWritten(width, height, len) == Some(p)
    ensures len <= width ==> p.x + len <= width
    ensures len <= width ==> p.x <= width - len - p.x <= p.x + 1
    ensures len > width ==> p.x == 0
    ensures p.y <= height - p.y <= p.y + 1
    ensures height >= 1 ==> p.y < height
  {
    Point(SaturatingSub(width, len) / 2, height / 2)
  }

  /** The welcome banner's commands: a run of spaces from the row's start up
      to the banner's column, the banner, and a flush. */
  function WelcomeCommands(size: Size, banner: string): (cmds: seq<Command>)
    requires |banner| <= USIZE_MAX
    ensures |cmds| == 3 && cmds[0].PrintAt? && cmds[1].PrintAt? && cmds[2] == Flush
    ensures cmds[1].text == banner
    ensures cmds[1].at == WelcomePadding(size.width, size.height, |banner|)
    ensures cmds[0].at == Point(0, cmds[1].at.y)
    ensures cmds[0].text == Spaces(cmds[1].at.x)
    ensures |cmds[0].text| == cmds[1].at.x
    ensures |banner| <= size.width ==> cmds[1].at.x + |banner| <= size.width
    ensures |banner| <= size.width ==> cmds[1].at.x <= size.width - |banner| - cmds[1].at.x
    ensures size.height >= 1 ==> cmds[1].at.y < size.height
  {
    var p := WelcomePadding(size.width, size.height, |banner|);
    [PrintAt(Point(0, p.y), Spaces(p.x)), PrintAt(p, banner), Flush]
  }

  /** The one-shot clear: the whole screen is cleared exactly when the flag
      is armed; the cursor is hidden around it and the queue flushed. */
  function ClearCommands(armed: bool): (cmds: seq<Command>)
    ensures Clear(All) in cmds <==> armed
    ensures |cmds| >= 3 && cmds[0] == Hide && cmds[|cmds| - 2..] == [Show, Flush]
  {
    [Hide] + (if armed then [Clear(All)] else []) + [Show, Flush]
  }

  /** The full redraw: filler rows, banner, cursor home. */
  function RefreshCommands(size: Size, banner: string): seq<Command>
    requires |banner| <= USIZE_MAX
  {
    [Hide] + Rows(size.height, size.height) + WelcomeCommands(size, banner)
    + [MoveTo(Origin), Show, Flush]
  }
}
