/** The snake's own operations: one tick of movement, growth by one part, and
    the self-collision test.
 */
module Engine {
  import opened Geometry
  import opened Entities

  /** The tail after a move: every part takes the cell and heading of the part
      ahead of it, and the first part takes `lead`, the head as it was. The last
      part's old values are the only ones dropped. */
  function Shifted(tail: seq<TailPart>, lead: TailPart): (t: seq<TailPart>)
    ensures |t| == |tail|
    ensures |t| > 0 ==> t[0] == lead
    ensures forall i :: 1 <= i < |t| ==> t[i] == tail[i - 1]
  {
    if |tail| == 0 then [] else [lead] + tail[..|tail| - 1]
  }

  /** The tail shift of `Snake.prototype.move` as the source performs it: in place,
      from the last part towards the first, so each part is read before it is
      overwritten; then the first part takes the head's cell and heading. */
  method ShiftTail(tail: seq<TailPart>, x: int, y: int, direction: Direction) returns (t: seq<TailPart>)
    ensures t == Shifted(tail, TailPart(x, y, direction))
  {
    t := tail;
    if |t| > 0 {
      var i := |t|;
      while i > 1
        invariant 1 <= i <= |t| == |tail|
        invariant forall j :: 0 <= j < i ==> t[j] == tail[j]
        invariant forall j :: i <= j < |t| ==> t[j] == tail[j - 1]
        decreases i
      {
        t := t[i - 1 := t[i - 2]];
        i := i - 1;
      }
      t := t[0 := TailPart(x, y, direction)];
    }
  }

  /** `Snake.prototype.move`: the tail follows the head, then the head advances
      `Speed` cells in its heading. */
  function Move(s: Snake): (r: Snake)
    ensures r.direction == s.direction
    ensures |r.tail| == |s.tail|
    ensures |s.tail| > 0 ==> r.tail[0] == TailPart(s.x, s.y, s.direction)
    ensures forall i :: 1 <= i < |r.tail| ==> r.tail[i] == s.tail[i - 1]
    ensures s.direction == Up ==> r.x == s.x && r.y == s.y - RectScale
    ensures s.direction == Down ==> r.x == s.x && r.y == s.y + RectScale
    ensures s.direction == Left ==> r.x == s.x - RectScale && r.y == s.y
    ensures s.direction == Right ==> r.x == s.x + RectScale && r.y == s.y
  {
    var (x, y) := Step(s.x, s.y, s.direction, Speed * RectScale);
    Snake(x, y, s.direction, Shifted(s.tail, TailPart(s.x, s.y, s.direction)))
  }

  /** The part a new tail part is copied from: the last tail part, or the head
      itself when there is no tail. */
  function GrowthSource(s: Snake): TailPart
  {
    if |s.tail| > 0 then s.tail[|s.tail| - 1] else TailPart(s.x, s.y, s.direction)
  }

  /** `Snake.prototype.eat`: appends one part one cell behind its source, keeping
      the source's heading. Nothing else changes. */
  function Eat(s: Snake): (r: Snake)
    ensures r.x == s.x && r.y == s.y && r.direction == s.direction
    ensures |r.tail| == |s.tail| + 1
    ensures r.tail[..|s.tail|] == s.tail
    ensures var p, src := r.tail[|s.tail|], GrowthSource(s);
              p.direction == src.direction && Step(p.x, p.y, p.direction, RectScale) == (src.x, src.y)
  {
    var src := GrowthSource(s);
    var (x, y) := Step(src.x, src.y, Opposite(src.direction), RectScale);
    s.(tail := s.tail + [TailPart(x, y, src.direction)])
  }

  /** True iff some part of `parts` stands on the cell (x, y); scans in order
      and stops at the first hit. */
  function Occupied(parts: seq<TailPart>, x: int, y: int): (r: bool)
    ensures r <==> exists i :: 0 <= i < |parts| && parts[i].x == x && parts[i].y == y
  {
    if |parts| == 0 then false
    else if parts[0].x == x && parts[0].y == y then true
    else Occupied(parts[1..], x, y)
  }

  /** `Snake.prototype.eatHimself`: the head stands on one of its own tail parts. */
  function EatsSelf(s: Snake): (r: bool)
    ensures r <==> exists i :: 0 <= i < |s.tail| && s.tail[i].x == s.x && s.tail[i].y == s.y
    ensures |s.tail| == 0 ==> !r
  {
    Occupied(s.tail, s.x, s.y)
  }
}
