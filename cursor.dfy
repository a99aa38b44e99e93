/** Cursor movement: where each of the eight navigation keys takes the
    cursor on a terminal of a given size. */
module Cursor {
  import opened Geometry
  import opened Events

  /** Up, Down, PageUp and PageDown move along a column. */
  predicate IsVertical(code: KeyCode)
  {
    code == Up || code == Down || code == PageUp || code == PageDown
  }

  /** Left, Right, Home and End move along a row. */
  predicate IsHorizontal(code: KeyCode)
  {
    code == Left || code == Right || code == Home || code == End
  }

  predicate IsNavigation(code: KeyCode)
  {
    IsVertical(code) || IsHorizontal(code)
  }

  /** Home, End, PageUp and PageDown jump to an edge. */
  predicate IsAbsolute(code: KeyCode)
  {
    code == Home || code == End || code == PageUp || code == PageDown
  }

  /** The movement table in unbounded arithmetic: one step back stops at 0,
      one step forward stops at the last cell, the absolute keys jump to the
      first or the last cell; any other key leaves the cursor where it is. */
  function Moved(code: KeyCode, p: Point, s: Size): (q: Point)
    ensures IsVertical(code) ==> q.x == p.x
    ensures IsHorizontal(code) ==> q.y == p.y
    ensures !IsNavigation(code) ==> q == p
    ensures InBounds(p, s) ==> InBounds(q, s)
  {
    match code
    case Up => Point(p.x, Max(p.y - 1, 0))
    case Down => Point(p.x, Min(p.y + 1, LastIndex(s.height)))
    case Left => Point(Max(p.x - 1, 0), p.y)
    case Right => Point(Min(p.x + 1, LastIndex(s.width)), p.y)
    case PageUp => Point(p.x, 0)
    case PageDown => Point(p.x, LastIndex(s.height))
    case Home => Point(0, p.y)
    case End => Point(LastIndex(s.width), p.y)
    case _ => p
  }

  /** The cursor after the keys of `codes`, pressed in order. */
  function MoveAll(codes: seq<KeyCode>, p: Point, s: Size): Point
  {
    if codes == [] then p else MoveAll(codes[1..], Moved(codes[0], p, s), s)
  }

  /** The cursor after pressing `code` `n` times. */
  function Pressed(code: KeyCode, n: nat, p: Point, s: Size): Point
  {
    if n == 0 then p else Moved(code, Pressed(code, n - 1, p, s), s)
  }

  /** Any sequence of keys keeps a cursor that starts on the screen on the screen. */
  lemma {:induction false} MoveAllInBounds(codes: seq<KeyCode>, p: Point, s: Size)
    requires InBounds(p, s)
    ensures InBounds(MoveAll(codes, p, s), s)
  {
    if codes != [] {
      MoveAllInBounds(codes[1..], Moved(codes[0], p, s), s);
    }
  }

  /** Up and Left step back by one and saturate at zero; Down and Right step
      forward by one and stop at the last cell, where they change nothing. */
  lemma SingleSteps(p: Point, s: Size)
    requires InBounds(p, s)
    ensures p.y == 0 ==> Moved(Up, p, s) == p
    ensures p.y > 0 ==> Moved(Up, p, s) == Point(p.x, p.y - 1)
    ensures p.x == 0 ==> Moved(Left, p, s) == p
    ensures p.x > 0 ==> Moved(Left, p, s) == Point(p.x - 1, p.y)
    ensures p.y + 1 == s.height ==> Moved(Down, p, s) == p
    ensures p.y + 1 < s.height ==> Moved(Down, p, s) == Point(p.x, p.y + 1)
    ensures p.x + 1 == s.width ==> Moved(Right, p, s) == p
    ensures p.x + 1 < s.width ==> Moved(Right, p, s) == Point(p.x + 1, p.y)
  {
  }

  /** The absolute keys ignore the coordinate they set, so pressing one
      twice is the same as pressing it once. */
  lemma AbsoluteKeys(code: KeyCode, p: Point, p': Point, s: Size)
    requires IsAbsolute(code)
    requires IsVertical(code) ==> p.x == p'.x
    requires IsHorizontal(code) ==> p.y == p'.y
    ensures Moved(code, p, s) == Moved(code, p', s)
    ensures Moved(code, Moved(code, p, s), s) == Moved(code, p, s)
  {
  }

  /** Pressing Up or Left `n` times moves back `n` cells, stopping at 0;
      from there further presses change nothing. */
  lemma {:induction false} PressedBack(code: KeyCode, n: nat, p: Point, s: Size)
    requires code == Up || code == Left
    ensures code == Up ==> Pressed(code, n, p, s) == Point(p.x, Max(p.y - n, 0))
    ensures code == Left ==> Pressed(code, n, p, s) == Point(Max(p.x - n, 0), p.y)
  {
    if n > 0 {
      PressedBack(code, n - 1, p, s);
    }
  }

  /** Pressing Down or Right `n >= 1` times moves forward `n` cells, stopping
      at the last cell (and a cursor beyond the last cell, left there by a
      shrinking terminal, is brought back to it). */
  lemma {:induction false} PressedForward(code: KeyCode, n: nat, p: Point, s: Size)
    requires code == Down || code == Right
    requires n >= 1
    ensures code == Down ==> Pressed(code, n, p, s) == Point(p.x, Min(p.y + n, LastIndex(s.height)))
    ensures code == Right ==> Pressed(code, n, p, s) == Point(Min(p.x + n, LastIndex(s.width)), p.y)
  {
    if n > 1 {
      PressedForward(code, n - 1, p, s);
    }
  }

  /** On an 80x24 terminal: five Rights from the origin reach (5, 0);
      PageDown then gives (5, 23), Home (0, 23) and Up (0, 22). */
  lemma Walkthrough()
    ensures var s := Size(80, 24);
            var p := Pressed(Right, 5, Origin, s);
            p == Point(5, 0)
            && Moved(PageDown, p, s) == Point(5, 23)
            && Moved(Home, Moved(PageDown, p, s), s) == Point(0, 23)
            && Moved(Up, Moved(Home, Moved(PageDown, p, s), s), s) == Point(0, 22)
  {
    PressedForward(Right, 5, Origin, Size(80, 24));
  }
}
