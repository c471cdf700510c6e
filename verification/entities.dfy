/** The game objects: the snake's head with its tail parts, and the apples.

    Every object is a cell-sized square with a colour; width, height and colour
    are constants of its kind and are not stored. Only positions, directions
    and the tail change.
 */
module Entities {
  import opened Geometry

  /** The four headings. Their numeric codes 0..3 are what `gen(0, 4)` draws. */
  datatype Direction = Up | Down | Left | Right

  /** Cells the head advances per tick. */
  const Speed: int := 1

  /** A tail segment: its cell and the heading the segment ahead had when it stood here. */
  datatype TailPart = TailPart(x: int, y: int, direction: Direction)

  /** The snake: head cell, heading, and tail parts from nearest to the head to farthest. */
  datatype Snake = Snake(x: int, y: int, direction: Direction, tail: seq<TailPart>)

  datatype Apple = Apple(x: int, y: int)

  /** An optional constructor argument (JavaScript's `undefined` when absent). */
  datatype Option<T> = None | Some(value: T)

  /** The random draws one position needs: a cell index per axis. */
  datatype PlaceDraw = PlaceDraw(kx: int, ky: int)

  /** The random draws a snake reset needs: a position and a heading code. */
  datatype SpawnDraw = SpawnDraw(place: PlaceDraw, kd: int)

  predicate ValidPlace(b: Board, d: PlaceDraw)
  {
    IsDraw(0, b.width, RectScale, d.kx) && IsDraw(0, b.height, RectScale, d.ky)
  }

  predicate ValidSpawn(b: Board, d: SpawnDraw)
  {
    ValidPlace(b, d.place) && IsDraw(0, 4, 1, d.kd)
  }

  /** The heading with numeric code `code`, as in the `Direction` table. */
  function DirectionOf(code: int): (d: Direction)
    requires 0 <= code < 4
    ensures CodeOf(d) == code
  {
    match code
    case 0 => Up
    case 1 => Down
    case 2 => Left
    case 3 => Right
  }

  function CodeOf(d: Direction): int
  {
    match d
    case Up => 0
    case Down => 1
    case Left => 2
    case Right => 3
  }

  /** The heading that undoes `d`. */
  function Opposite(d: Direction): (o: Direction)
    ensures o != d
    ensures (d == Up || d == Down) <==> (o == Up || o == Down)
  {
    match d
    case Up => Down
    case Down => Up
    case Left => Right
    case Right => Left
  }

  /** Reversing twice restores the heading. */
  lemma OppositeInvolutive(d: Direction)
    ensures Opposite(Opposite(d)) == d
  {
  }

  /** The point `dist` pixels from (x, y) in heading `d` (y grows downwards). */
  function Step(x: int, y: int, d: Direction, dist: int): (int, int)
  {
    match d
    case Up => (x, y - dist)
    case Down => (x, y + dist)
    case Left => (x - dist, y)
    case Right => (x + dist, y)
  }

  /** Stepping forward and then back along the same heading returns to the start. */
  lemma StepOppositeCancels(x: int, y: int, d: Direction, dist: int)
    ensures var (x1, y1) := Step(x, y, d, dist); Step(x1, y1, Opposite(d), dist) == (x, y)
  {
  }

  /** The heading a random draw `gen(0, 4)` selects. */
  function DrawDirection(kd: int): (d: Direction)
    requires IsDraw(0, 4, 1, kd)
    ensures CodeOf(d) == kd
  {
    DirectionOf(Gen(0, 4, 1, kd))
  }

  /** `GameObject.prototype.genNewPosition(x, y)`: an absent coordinate is drawn on the grid. */
  function GenNewPosition(b: Board, x: Option<int>, y: Option<int>, d: PlaceDraw): (p: (int, int))
    requires ValidPlace(b, d)
    ensures x.Some? ==> p.0 == x.value
    ensures y.Some? ==> p.1 == y.value
    ensures x.None? ==> Cell(p.0, b.width)
    ensures y.None? ==> Cell(p.1, b.height)
  {
    (if x.Some? then x.value else GenRect(b.width, d.kx),
     if y.Some? then y.value else GenRect(b.height, d.ky))
  }

  /** `Snake.prototype.genNewPosition()`: a fresh head cell and heading, and no tail. */
  function Respawn(b: Board, d: SpawnDraw): (s: Snake)
    requires ValidSpawn(b, d)
    ensures s.tail == []
    ensures Cell(s.x, b.width) && Cell(s.y, b.height)
    ensures CodeOf(s.direction) == d.kd
  {
    var (x, y) := GenNewPosition(b, None, None, d.place);
    Snake(x, y, DrawDirection(d.kd), [])
  }

  /** The `Snake` constructor. The base constructor's `genNewPosition` call dispatches
      to the snake's own, which draws a heading; the constructor body then draws a
      second heading (`kd`) that replaces the first. */
  function NewSnake(b: Board, d: SpawnDraw, kd: int): (s: Snake)
    requires ValidSpawn(b, d) && IsDraw(0, 4, 1, kd)
    ensures s.tail == []
    ensures Cell(s.x, b.width) && Cell(s.y, b.height)
    ensures CodeOf(s.direction) == kd
  {
    Respawn(b, d).(direction := DrawDirection(kd))
  }

  /** The `Apple` constructor and `apple.genNewPosition()`: a fresh cell on the board. */
  function NewApple(b: Board, d: PlaceDraw): (a: Apple)
    requires ValidPlace(b, d)
    ensures Cell(a.x, b.width) && Cell(a.y, b.height)
  {
    var (x, y) := GenNewPosition(b, None, None, d);
    Apple(x, y)
  }
}
