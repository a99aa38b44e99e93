/** Screen geometry: cell coordinates and terminal dimensions, both held in
    Rust's `usize`, together with the saturating arithmetic the editor uses
    on them. */
module Geometry {

  /** The largest value of a 64-bit `usize`. */
  const USIZE_MAX: int := 0xFFFF_FFFF_FFFF_FFFF

  /** Rust's `usize`: every value the editor's coordinates can take. */
  type Usize = n: int | 0 <= n <= USIZE_MAX

  /** A screen cell: `x` is the column, `y` the row. */
  datatype Point = Point(x: Usize, y: Usize)

  /** Terminal dimensions in cells. */
  datatype Size = Size(width: Usize, height: Usize)

  /** The top-left cell. */
  const Origin: Point := Point(0, 0)

  /** `usize::saturating_sub`. */
  function SaturatingSub(a: Usize, b: Usize): Usize
  {
    if a >= b then a - b else 0
  }

  /** `usize::saturating_add`. */
  function SaturatingAdd(a: Usize, b: Usize): Usize
  {
    if a + b <= USIZE_MAX then a + b else USIZE_MAX
  }

  function Min(a: int, b: int): int
  {
    if a <= b then a else b
  }

  function Max(a: int, b: int): int
  {
    if a >= b then a else b
  }

  /** The last index of a dimension of `n` cells (`n.saturating_sub(1)`):
      `n - 1`, or 0 for an empty dimension. */
  function LastIndex(n: Usize): (r: Usize)
    ensures n >= 1 ==> r + 1 == n
    ensures n == 0 ==> r == 0
  {
    SaturatingSub(n, 1)
  }

  /** The cell `p` lies on a terminal of size `s`. */
  predicate InBounds(p: Point, s: Size)
  {
    p.x < s.width && p.y < s.height
  }
}
