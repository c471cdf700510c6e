/** The grid of the board and the grid-aligned random coordinate generator.

    The generator multiplies a uniform real in [0, 1) by the number of cells,
    floors it and scales it back. The real draw is replaced here by the cell
    index `k` that the floor produces, so every operation that "picks at random"
    takes that index as a parameter and is deterministic in it.
 */
module Geometry {

  /** Side of one grid cell in pixels; every game object is a square of this size. */
  const RectScale: int := 20

  /** The drawing surface. Its dimensions come from the host canvas and are never negative. */
  datatype Board = Board(width: nat, height: nat)

  /** True iff `k` is a value `floor(u * ((max - min) / scale))` can take for some real `u`
      in [0, 1). For `max > min` these are the `k >= 0` with `k * scale < max - min`
      (the division is real, so `max - min` need not be a multiple of `scale`);
      for `max == min` the product is always 0. */
  predicate IsDraw(min: int, max: int, scale: int, k: int)
  {
    0 <= k && (k == 0 || k * scale < max - min)
  }

  /** `gen(min, max, scale)` with its random cell index fixed to `k`. */
  function Gen(min: int, max: int, scale: int, k: int): (r: int)
    requires 0 < scale && min <= max
    requires IsDraw(min, max, scale, k)
    ensures min <= r
    ensures r < max || r == min == max
    ensures (r - min) % scale == 0
  {
    k * scale + min
  }

  /** The cell index that makes `Gen` produce `v`: the inverse of `Gen` on its range. */
  function DrawOf(min: int, scale: int, v: int): int
    requires 0 < scale
  {
    (v - min) / scale
  }

  /** `genRect(max)`: a coordinate in [0, max) that is a multiple of the cell size. */
  function GenRect(max: nat, k: int): (r: int)
    requires IsDraw(0, max, RectScale, k)
    ensures Cell(r, max)
  {
    Gen(0, max, RectScale, k)
  }

  /** A coordinate lies on the grid. */
  predicate Aligned(v: int)
  {
    v % RectScale == 0
  }

  /** The coordinates `genRect(max)` can produce: aligned and inside [0, max),
      or 0 on a board of size 0, where the generator has nowhere else to go. */
  predicate Cell(v: int, max: nat)
  {
    Aligned(v) && (0 <= v < max || v == 0 == max)
  }

  /** Every value `Gen` may return is reached by exactly the draw `DrawOf` names:
      `Gen` and `DrawOf` are inverse to each other. */
  lemma GenDrawOfRoundTrip(min: int, max: int, scale: int, k: int)
    requires 0 < scale && min <= max
    requires IsDraw(min, max, scale, k)
    ensures DrawOf(min, scale, Gen(min, max, scale, k)) == k
  {
    assert Gen(min, max, scale, k) - min == k * scale;
  }

  /** Conversely, every aligned value of the half-open range is produced by some
      draw, so the generator covers the whole range. (How often each value comes
      up is not modelled: when `max - min` is not a multiple of `scale`, the last
      value is drawn less often than the others.) */
  lemma GenCovers(min: int, max: int, scale: int, v: int)
    requires 0 < scale && min <= v < max
    requires (v - min) % scale == 0
    ensures IsDraw(min, max, scale, DrawOf(min, scale, v))
    ensures Gen(min, max, scale, DrawOf(min, scale, v)) == v
  {
    var k := DrawOf(min, scale, v);
    assert v - min == k * scale;
  }

  /** Distinct draws give distinct coordinates. */
  lemma GenInjective(min: int, max: int, scale: int, k1: int, k2: int)
    requires 0 < scale && min <= max
    requires IsDraw(min, max, scale, k1) && IsDraw(min, max, scale, k2)
    requires Gen(min, max, scale, k1) == Gen(min, max, scale, k2)
    ensures k1 == k2
  {
    GenDrawOfRoundTrip(min, max, scale, k1);
    GenDrawOfRoundTrip(min, max, scale, k2);
  }

  /** `gen(0, 4)` (scale 1) produces exactly the values 0, 1, 2 and 3: the
      admissible draws are exactly 0..3, and each yields itself. */
  lemma DirectionDrawRange(k: int)
    ensures IsDraw(0, 4, 1, k) <==> 0 <= k < 4
    ensures IsDraw(0, 4, 1, k) ==> Gen(0, 4, 1, k) == k
  {
  }

  /** Every value of `GenRect` is a `Cell`, and every `Cell` of a non-empty
      range is the value of some draw. */
  lemma CellIsGenRect(max: nat, v: int)
    requires Cell(v, max)
    ensures IsDraw(0, max, RectScale, DrawOf(0, RectScale, v))
    ensures GenRect(max, DrawOf(0, RectScale, v)) == v
  {
    if max == 0 {
      assert v == 0;
    } else {
      GenCovers(0, max, RectScale, v);
    }
  }
}
